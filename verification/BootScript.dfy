/**
 The script that stores settings in the boot environment: one line a setting,
 a name, a space and the value.  A value with a line end spills onto lines of
 its own, each of which names another variable and gives it nothing.
 */
module BootScript {
  import opened Basics
  import opened BootEnvironment
  import opened Text
  import opened ConfigFile

  /** A name and the value stored under it. */
  datatype Binding = Binding(name: string, value: string)

  // ---------------------------------------------------------------------
  // Running a script.

  /** What one line stores. */
  function BindingOf(line: string): Binding {
    var space := IndexOf(line, ' ');
    Binding(line[..space], if space < |line| then line[space + 1..] else [])
  }

  function BindingsOf(lines: seq<string>): seq<Binding> {
    seq(|lines|, i requires 0 <= i < |lines| => BindingOf(lines[i]))
  }

  /** The environment after the bindings in order. */
  function StoreBindings(env: Environment, bindings: seq<Binding>, keeps: bool): Environment {
    if bindings == [] then env
    else
      var last := bindings[|bindings| - 1];
      StoreOne(StoreBindings(env, bindings[..|bindings| - 1], keeps), last.name, last.value, keeps)
  }

  function RunScript(env: Environment, script: string, keeps: bool): Environment {
    StoreBindings(env, BindingsOf(Lines(script)), keeps)
  }

  /** The last value stored under a name. */
  function LastValue(bindings: seq<Binding>, name: string): Option<string> {
    if bindings == [] then None
    else
      var last := bindings[|bindings| - 1];
      if last.name == name then Some(last.value) else LastValue(bindings[..|bindings| - 1], name)
  }

  lemma {:induction false} StoredLookup(env: Environment, bindings: seq<Binding>, keeps: bool, name: string)
    ensures Lookup(StoreBindings(env, bindings, keeps), name)
         == match LastValue(bindings, name) case Some(value) => Kept(value, keeps) case None => Lookup(env, name)
    decreases |bindings|
  {
    if bindings != [] {
      var last := bindings[|bindings| - 1];
      StoredLookup(env, bindings[..|bindings| - 1], keeps, name);
      StoredOne(StoreBindings(env, bindings[..|bindings| - 1], keeps), last.name, last.value, keeps, name);
    }
  }

  /** All bindings of the name agree, and there is one. */
  lemma {:induction false} LastValueIs(bindings: seq<Binding>, name: string, value: string)
    requires Binding(name, value) in bindings
    requires forall e :: e in bindings && e.name == name ==> e.value == value
    ensures LastValue(bindings, name) == Some(value)
    decreases |bindings|
  {
    var last := bindings[|bindings| - 1];
    assert last in bindings;
    if last.name != name {
      assert Binding(name, value) in bindings[..|bindings| - 1];
      LastValueIs(bindings[..|bindings| - 1], name, value);
    }
  }

  lemma {:induction false} NoLastValue(bindings: seq<Binding>, name: string)
    requires forall e :: e in bindings ==> e.name != name
    ensures LastValue(bindings, name) == None
    decreases |bindings|
  {
    if bindings != [] {
      assert bindings[|bindings| - 1] in bindings;
      NoLastValue(bindings[..|bindings| - 1], name);
    }
  }

  // ---------------------------------------------------------------------
  // Writing a script.

  function ScriptLine(e: Binding): string {
    e.name + " " + Terminated(e.value)
  }

  function ScriptLines(bindings: seq<Binding>): seq<string> {
    seq(|bindings|, i requires 0 <= i < |bindings| => ScriptLine(bindings[i]))
  }

  function ScriptText(bindings: seq<Binding>): string {
    Joined(ScriptLines(bindings))
  }

  /** The lines of a value after its first. */
  function Continuations(value: string): seq<string>
    requires Records(value) != []
  {
    Records(value)[1..]
  }

  /** What a binding's lines store: its name, with the first line of its value, and nothing under each other line. */
  function Spilled(e: Binding): seq<Binding>
    requires Records(e.value) != []
  {
    [Binding(e.name, FirstLine(e.value))] + Emptied(Continuations(e.value))
  }

  function Emptied(names: seq<string>): seq<Binding> {
    seq(|names|, i requires 0 <= i < |names| => Binding(names[i], []))
  }

  function SpilledAll(bindings: seq<Binding>): seq<Binding>
    requires forall e :: e in bindings ==> Records(e.value) != []
  {
    if bindings == [] then [] else Spilled(bindings[0]) + SpilledAll(bindings[1..])
  }

  predicate IsBinding(e: Binding) {
    IsKey(e.name) && IsExportable(e.value)
  }

  lemma NamedLine(name: string, value: string)
    requires IsKey(name)
    ensures BindingOf(name + " " + value) == Binding(name, value) && '\n' !in name + " "
  {
    var line := name + " " + value;
    assert line == name + [' '] + value;
    IndexOfSplit(name, ' ', value);
    assert line[..|name|] == name && line[|name| + 1..] == value;
  }

  lemma DottedLine(line: string)
    requires IsDotted(line)
    ensures BindingOf(line) == Binding(line, [])
  {
    IndexOfNone(line, ' ');
  }

  lemma BindingsConcat(a: seq<string>, b: seq<string>)
    ensures BindingsOf(a + b) == BindingsOf(a) + BindingsOf(b)
  {
  }

  lemma DottedBindings(lines: seq<string>)
    requires forall i :: 0 <= i < |lines| ==> IsDotted(lines[i])
    ensures BindingsOf(lines) == Emptied(lines)
  {
    forall i | 0 <= i < |lines|
      ensures BindingOf(lines[i]) == Binding(lines[i], [])
    {
      DottedLine(lines[i]);
    }
  }

  lemma BindingIsSpilled(e: Binding)
    requires IsBinding(e)
    ensures Records(e.value) != [] && IsTerminated(ScriptLine(e))
    ensures BindingsOf(Lines(ScriptLine(e))) == Spilled(e)
  {
    var records, prefix := Records(e.value), e.name + " ";
    RecordsSplit(e.value, records);
    NamedLine(e.name, records[0]);
    LinesPrefixed(prefix, Terminated(e.value));
    BindingsConcat([prefix + records[0]], records[1..]);
    DottedBindings(records[1..]);
    OneBinding(prefix + records[0], Binding(e.name, records[0]));
  }

  lemma OneBinding(line: string, e: Binding)
    requires BindingOf(line) == e
    ensures BindingsOf([line]) == [e]
  {
  }

  lemma SpilledFirst(script: string, first: string, rest: string)
    requires script == first + rest && IsTerminated(first)
    ensures BindingsOf(Lines(script)) == BindingsOf(Lines(first)) + BindingsOf(Lines(rest))
  {
    LinesConcat(first, rest);
    BindingsConcat(Lines(first), Lines(rest));
  }

  lemma JoinedFirst(bindings: seq<Binding>)
    requires bindings != []
    ensures ScriptText(bindings) == ScriptLine(bindings[0]) + ScriptText(bindings[1..])
  {
    assert ScriptLines(bindings)[1..] == ScriptLines(bindings[1..]);
  }

  /** A written script stores each binding under its name, cut at its first line end, and what its other lines name. */
  lemma {:induction false} ScriptIsSpilled(bindings: seq<Binding>)
    requires forall e :: e in bindings ==> IsBinding(e)
    ensures forall e :: e in bindings ==> Records(e.value) != []
    ensures BindingsOf(Lines(ScriptText(bindings))) == SpilledAll(bindings)
    decreases |bindings|
  {
    if bindings != [] {
      BindingIsSpilled(bindings[0]);
      ScriptIsSpilled(bindings[1..]);
      JoinedFirst(bindings);
      SpilledFirst(ScriptText(bindings), ScriptLine(bindings[0]), ScriptText(bindings[1..]));
    }
  }

  // ---------------------------------------------------------------------
  // What is in a spilled script.

  /** A line, after the first, of one of the values. */
  predicate IsContinuation(line: string, bindings: seq<Binding>) {
    exists e :: e in bindings && Records(e.value) != [] && line in Continuations(e.value)
  }

  /** One of the bindings spills this one. */
  predicate IsSpilled(x: Binding, bindings: seq<Binding>)
    requires forall e :: e in bindings ==> Records(e.value) != []
  {
    exists i :: 0 <= i < |bindings| && x in Spilled(bindings[i])
  }

  lemma SpilledFirstOrLater(bindings: seq<Binding>, x: Binding)
    requires bindings != [] && forall e :: e in bindings ==> Records(e.value) != []
    ensures IsSpilled(x, bindings) <==> x in Spilled(bindings[0]) || IsSpilled(x, bindings[1..])
  {
    if IsSpilled(x, bindings) {
      var i :| 0 <= i < |bindings| && x in Spilled(bindings[i]);
      assert 0 < i ==> bindings[1..][i - 1] == bindings[i];
    }
    if IsSpilled(x, bindings[1..]) {
      var i :| 0 <= i < |bindings[1..]| && x in Spilled(bindings[1..][i]);
      assert bindings[i + 1] == bindings[1..][i];
    }
  }

  lemma {:induction false} InSpilled(bindings: seq<Binding>, x: Binding)
    requires forall e :: e in bindings ==> Records(e.value) != []
    ensures x in SpilledAll(bindings) <==> IsSpilled(x, bindings)
    decreases |bindings|
  {
    if bindings != [] {
      InSpilled(bindings[1..], x);
      SpilledFirstOrLater(bindings, x);
    }
  }

  lemma SpilledBindings(bindings: seq<Binding>, x: Binding)
    requires forall e :: e in bindings ==> Records(e.value) != []
    ensures x in SpilledAll(bindings)
       <==> (exists e :: e in bindings && x == Binding(e.name, FirstLine(e.value)))
            || (x.value == [] && IsContinuation(x.name, bindings))
  {
    InSpilled(bindings, x);
    forall e | e in bindings
      ensures x in Spilled(e) <==> x == Binding(e.name, FirstLine(e.value)) || (x.value == [] && x.name in Continuations(e.value))
    {
      InEmptied(Continuations(e.value), x);
    }
  }

  lemma InEmptied(names: seq<string>, x: Binding)
    ensures x in Emptied(names) <==> x.value == [] && x.name in names
  {
    if x.value == [] && x.name in names {
      var i :| 0 <= i < |names| && names[i] == x.name;
      assert Emptied(names)[i] == x;
    }
  }
}
