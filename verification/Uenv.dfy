/** The locked uEnv importer: a scan with cursors over a memory buffer, and the lines it stands for. */
module Uenv {
  import opened BootEnvironment
  import opened Text

  const MAX_VALUE_LENGTH := 32
  const RF_MODEL := "rf_model"
  const RF_TOPOLOGY := "rf_topology"

  // ---------------------------------------------------------------------
  // What the text means, line by line.

  predicate IsBlank(c: char) {
    c == ' ' || c == '\t'
  }

  predicate IsTrailing(c: char) {
    IsBlank(c) || c == '\r'
  }

  function Trim(text: string): string {
    TrimEnd(IsTrailing, TrimStart(IsBlank, text))
  }

  /** A character array read as a C string. */
  function CString(text: string): string {
    text[..IndexOf(text, '\0')]
  }

  datatype Effect =
    | Nothing
    | Oversized
    | Assign(key: string, value: string)

  predicate IsSelector(key: string) {
    key == RF_MODEL || key == RF_TOPOLOGY
  }

  /** What an assignment asks for, once key and value are trimmed. */
  function Requested(key: string, value: string): Effect {
    if IsSelector(key) then Setting(key, value) else Nothing
  }

  function Setting(key: string, value: string): Effect {
    if |value| >= MAX_VALUE_LENGTH then Oversized else Assign(key, CString(value))
  }

  /** What one line asks for. */
  function LineEffect(line: string): Effect {
    TrimmedEffect(Trim(line))
  }

  function TrimmedEffect(text: string): Effect {
    var equals := IndexOf(text, '=');
    if text == [] || text[0] == '#' || equals == |text| then Nothing
    else Requested(Trim(text[..equals]), Trim(text[equals + 1..]))
  }

  /** The assignments made so far and the number of calls to setenv. */
  datatype Log = Log(assignments: seq<(string, string)>, calls: nat)

  /**
   One effect on the log, and whether the import goes on; `accepts` says which
   calls to setenv succeed.
   */
  function Perform(accepts: nat -> bool, log: Log, effect: Effect): (Log, bool) {
    match effect
    case Nothing => (log, true)
    case Oversized => (log, false)
    case Assign(key, value) =>
      if accepts(log.calls) then (Assigned(log, key, value), true) else (log.(calls := log.calls + 1), false)
  }

  /** The log after the effects in order, up to the first that stops the import. */
  function Import(accepts: nat -> bool, log: Log, effects: seq<Effect>): (Log, bool)
    decreases |effects|
  {
    if effects == [] then (log, true)
    else
      var (next, goesOn) := Perform(accepts, log, effects[0]);
      if goesOn then Import(accepts, next, effects[1..]) else (next, false)
  }

  function Effects(lines: seq<string>): seq<Effect> {
    seq(|lines|, i requires 0 <= i < |lines| => LineEffect(lines[i]))
  }

  /** What a text asks for, line by line. */
  function TextEffects(text: string): seq<Effect> {
    Effects(Lines(text))
  }

  function Assigned(log: Log, key: string, value: string): Log {
    Log(log.assignments + [(key, value)], log.calls + 1)
  }

  // ---------------------------------------------------------------------
  // C library pieces.

  /** `strncmp` finds no difference in the first `n` characters. */
  predicate StrncmpEqual(a: string, b: string, n: nat)
    requires n <= |a| && n <= |b|
    decreases n
  {
    n == 0 || (a[0] == b[0] && (a[0] == '\0' || StrncmpEqual(a[1..], b[1..], n - 1)))
  }

  predicate KeyAllowed(key: string) {
    || (|key| == |RF_MODEL| && StrncmpEqual(key, RF_MODEL + "\0", |key|))
    || (|key| == |RF_TOPOLOGY| && StrncmpEqual(key, RF_TOPOLOGY + "\0", |key|))
  }

  lemma {:induction false} StrncmpIsEquality(a: string, b: string, n: nat)
    requires n <= |a| && n <= |b| && forall k :: 0 <= k < n ==> b[k] != '\0'
    ensures StrncmpEqual(a, b, n) <==> a[..n] == b[..n]
    decreases n
  {
    if n != 0 {
      StrncmpIsEquality(a[1..], b[1..], n - 1);
      assert a[..n] == [a[0]] + a[1..][..n - 1];
      assert b[..n] == [b[0]] + b[1..][..n - 1];
    }
  }

  /** Only the two selectors pass, whatever bytes the key holds. */
  lemma AllowedKeys(key: string)
    ensures KeyAllowed(key) <==> IsSelector(key)
  {
    if |key| == |RF_MODEL| {
      StrncmpIsEquality(key, RF_MODEL + "\0", |key|);
      assert (RF_MODEL + "\0")[..|key|] == RF_MODEL && key[..|key|] == key;
    } else if |key| == |RF_TOPOLOGY| {
      StrncmpIsEquality(key, RF_TOPOLOGY + "\0", |key|);
      assert (RF_TOPOLOGY + "\0")[..|key|] == RF_TOPOLOGY && key[..|key|] == key;
    }
  }

  method MemCopy(dst: array<char>, src: array<char>, from: nat, n: nat)
    requires n <= dst.Length && from + n <= src.Length && dst != src
    modifies dst
    ensures dst[..n] == src[from..from + n]
    ensures forall k :: n <= k < dst.Length ==> dst[k] == old(dst[k])
  {
    for k := 0 to n
      invariant dst[..k] == src[from..from + k]
      invariant forall j :: n <= j < dst.Length ==> dst[j] == old(dst[j])
    {
      dst[k] := src[from + k];
    }
  }

  lemma CStringOf(buffer: string, n: nat)
    requires n < |buffer| && buffer[n] == '\0'
    ensures CString(buffer) == CString(buffer[..n])
  {
    var j := IndexOf(buffer[..n], '\0');
    FirstIndex(buffer, '\0', j);
    assert buffer[..n][..j] == buffer[..j];
  }

  lemma {:induction false} FirstIndex(text: string, c: char, i: nat)
    requires i < |text| && text[i] == c && forall k :: 0 <= k < i ==> text[k] != c
    ensures IndexOf(text, c) == i
  {
  }

  lemma NoNul(text: string)
    requires '\0' !in text
    ensures CString(text) == text
  {
    var i := IndexOf(text, '\0');
    assert i == |text|;
  }

  /** The boot loader: which of its setenv calls succeed, and what they have assigned. */
  class BootLoader {
    const accepts: nat -> bool
    var log: Log

    constructor (accepts: nat -> bool)
      ensures this.accepts == accepts && log == Log([], 0)
    {
      this.accepts := accepts;
      log := Log([], 0);
    }

    /** Both arrays hold terminated strings; what follows the terminator is not read. */
    method SetEnv(key: array<char>, value: array<char>) returns (failed: bool)
      requires '\0' in key[..] && '\0' in value[..]
      modifies this
      ensures failed == !accepts(old(log).calls)
      ensures log == if failed then old(log).(calls := old(log).calls + 1)
                     else Assigned(old(log), CString(key[..]), CString(value[..]))
    {
      failed := !accepts(log.calls);
      if failed {
        log := log.(calls := log.calls + 1);
      } else {
        log := Assigned(log, CString(key[..]), CString(value[..]));
      }
    }
  }

  // ---------------------------------------------------------------------
  // The scan.

  method TrimLeading(data: array<char>, start: nat, end: nat) returns (start': nat)
    requires start <= end <= data.Length
    ensures start <= start' <= end && data[start'..end] == TrimStart(IsBlank, data[start..end])
  {
    start' := start;
    while start' < end && (data[start'] == ' ' || data[start'] == '\t')
      invariant start <= start' <= end
      invariant TrimStart(IsBlank, data[start'..end]) == TrimStart(IsBlank, data[start..end])
    {
      assert data[start'..end][1..] == data[start' + 1..end];
      start' := start' + 1;
    }
  }

  method TrimTrailing(data: array<char>, start: nat, end: nat) returns (end': nat)
    requires start <= end <= data.Length
    ensures start <= end' <= end && data[start..end'] == TrimEnd(IsTrailing, data[start..end])
  {
    end' := end;
    while start < end' && (data[end' - 1] == ' ' || data[end' - 1] == '\t' || data[end' - 1] == '\r')
      invariant start <= end' <= end
      invariant TrimEnd(IsTrailing, data[start..end']) == TrimEnd(IsTrailing, data[start..end])
    {
      assert data[start..end'][..end' - start - 1] == data[start..end' - 1];
      end' := end' - 1;
    }
  }

  method TrimRange(data: array<char>, start: nat, end: nat) returns (start': nat, end': nat)
    requires start <= end <= data.Length
    ensures start <= start' <= end' <= end
    ensures data[start'..end'] == Trim(data[start..end])
  {
    start' := TrimLeading(data, start, end);
    end' := TrimTrailing(data, start', end);
  }

  /** The index of the first `c` in the range, or its end. */
  method Find(data: array<char>, start: nat, end: nat, c: char) returns (i: nat)
    requires start <= end <= data.Length
    ensures start <= i <= end && i - start == IndexOf(data[start..end], c)
  {
    i := start;
    while i < end && data[i] != c
      invariant start <= i <= end
      invariant IndexOf(data[start..end], c) == i - start + IndexOf(data[i..end], c)
    {
      assert data[i..end][1..] == data[i + 1..end];
      i := i + 1;
    }
  }

  lemma FirstEffect(text: string)
    requires text != []
    ensures TextEffects(text) == [LineEffect(FirstLine(text))] + TextEffects(AfterLine(text))
  {
    var lines := Lines(text);
    assert lines == [FirstLine(text)] + Lines(AfterLine(text));
  }

  lemma ImportFirst(accepts: nat -> bool, log: Log, effects: seq<Effect>, first: Effect, rest: seq<Effect>)
    requires effects == [first] + rest
    ensures Import(accepts, log, effects)
         == var (next, goesOn) := Perform(accepts, log, first);
            if goesOn then Import(accepts, next, rest) else (next, false)
  {
    assert effects[1..] == rest;
  }

  method ImportBuffer(data: array<char>, size: nat, env: BootLoader) returns (ok: bool)
    requires size <= data.Length
    modifies env
    ensures (env.log, ok) == Import(env.accepts, old(env.log), TextEffects(data[..size]))
  {
    var cursor := 0;
    assert data[0..size] == data[..size];
    while cursor < size
      invariant cursor <= size
      invariant Import(env.accepts, env.log, TextEffects(data[cursor..size]))
             == Import(env.accepts, old(env.log), TextEffects(data[..size]))
    {
      ghost var text := data[cursor..size];
      FirstEffect(text);
      ImportFirst(env.accepts, env.log, TextEffects(text), LineEffect(FirstLine(text)), TextEffects(AfterLine(text)));
      var line, lineEnd;
      line, lineEnd, cursor := NextLine(data, cursor, size);
      var stop := ImportLine(data, line, lineEnd, env);
      if stop {
        return false;
      }
    }
    assert data[cursor..size] == [];
    return true;
  }

  method NextLine(data: array<char>, cursor: nat, size: nat) returns (line: nat, lineEnd: nat, next: nat)
    requires cursor < size <= data.Length
    ensures cursor == line <= lineEnd <= size && cursor < next <= size
    ensures data[line..lineEnd] == FirstLine(data[cursor..size])
    ensures data[next..size] == AfterLine(data[cursor..size])
  {
    line := cursor;
    lineEnd := Find(data, cursor, size, '\n');
    next := lineEnd;
    if next < size {
      next := next + 1;
    }
  }

  /** One line; `stop` when it ends the import. */
  method ImportLine(data: array<char>, from: nat, to: nat, env: BootLoader) returns (stop: bool)
    requires from <= to <= data.Length
    modifies env
    ensures (env.log, !stop) == Perform(env.accepts, old(env.log), LineEffect(data[from..to]))
  {
    var found, key, keyEnd, value, valueEnd := SplitLine(data, from, to);
    if !found {
      return false;
    }
    SelectorShape(data[key..keyEnd]);
    stop := Set(data, key, keyEnd, |RF_TOPOLOGY| + 1, value, valueEnd, env);
  }

  /** The assignment of an allowed key, through the two local buffers; `stop` when it fails. */
  method Set(data: array<char>, key: nat, keyEnd: nat, keySize: nat, value: nat, valueEnd: nat, env: BootLoader)
    returns (stop: bool)
    requires key <= keyEnd <= data.Length && value <= valueEnd <= data.Length
    requires keyEnd - key < keySize && '\0' !in data[key..keyEnd]
    modifies env
    ensures (env.log, !stop)
         == Perform(env.accepts, old(env.log), Setting(data[key..keyEnd], data[value..valueEnd]))
  {
    if valueEnd - value >= MAX_VALUE_LENGTH {
      return true;
    }
    var keyBuffer := Terminated(data, key, keyEnd - key, keySize);
    var valueBuffer := Terminated(data, value, valueEnd - value, MAX_VALUE_LENGTH);
    NoNul(data[key..keyEnd]);
    stop := env.SetEnv(keyBuffer, valueBuffer);
  }

  /** The ranges of an allowed key and its value, if the line has them. */
  method SplitLine(data: array<char>, from: nat, to: nat)
    returns (found: bool, key: nat, keyEnd: nat, value: nat, valueEnd: nat)
    requires from <= to <= data.Length
    ensures key <= keyEnd <= data.Length && value <= valueEnd <= data.Length
    ensures LineEffect(data[from..to]) == if found then Requested(data[key..keyEnd], data[value..valueEnd]) else Nothing
    ensures found ==> IsSelector(data[key..keyEnd])
  {
    var line, lineEnd := TrimRange(data, from, to);
    found, key, keyEnd, value, valueEnd := SplitTrimmed(data, line, lineEnd);
  }

  method SplitTrimmed(data: array<char>, line: nat, lineEnd: nat)
    returns (found: bool, key: nat, keyEnd: nat, value: nat, valueEnd: nat)
    requires line <= lineEnd <= data.Length
    ensures key <= keyEnd <= data.Length && value <= valueEnd <= data.Length
    ensures TrimmedEffect(data[line..lineEnd])
         == if found then Requested(data[key..keyEnd], data[value..valueEnd]) else Nothing
    ensures found ==> IsSelector(data[key..keyEnd])
  {
    found, key, keyEnd, value, valueEnd := false, line, line, line, line;
    ghost var text := data[line..lineEnd];
    if line == lineEnd || data[line] == '#' {
      NoAssignment(text);
      return;
    }
    var equals := Find(data, line, lineEnd, '=');
    if equals == lineEnd {
      NoAssignment(text);
      return;
    }
    RangeParts(data, line, equals, lineEnd);
    AssignmentEffect(text, data[line..equals], data[equals + 1..lineEnd], equals - line);
    found, key, keyEnd, value, valueEnd := SplitParts(data, line, equals, lineEnd);
  }

  lemma RangeParts(data: array<char>, line: nat, equals: nat, lineEnd: nat)
    requires line <= equals < lineEnd <= data.Length
    ensures data[line..equals] == data[line..lineEnd][..equals - line]
    ensures data[equals + 1..lineEnd] == data[line..lineEnd][equals - line + 1..]
  {
  }

  method SplitParts(data: array<char>, line: nat, equals: nat, lineEnd: nat)
    returns (found: bool, key: nat, keyEnd: nat, value: nat, valueEnd: nat)
    requires line <= equals < lineEnd <= data.Length
    ensures key <= keyEnd <= data.Length && value <= valueEnd <= data.Length
    ensures Requested(Trim(data[line..equals]), Trim(data[equals + 1..lineEnd]))
         == if found then Requested(data[key..keyEnd], data[value..valueEnd]) else Nothing
    ensures found ==> IsSelector(data[key..keyEnd])
  {
    key, keyEnd := TrimRange(data, line, equals);
    value, valueEnd := TrimRange(data, equals + 1, lineEnd);
    found := CheckKey(data, key, keyEnd);
    OnlySelectorsAreRequested(data[key..keyEnd], data[value..valueEnd]);
  }

  method CheckKey(data: array<char>, key: nat, keyEnd: nat) returns (found: bool)
    requires key <= keyEnd <= data.Length
    ensures found == IsSelector(data[key..keyEnd])
  {
    AllowedKeys(data[key..keyEnd]);
    found := KeyAllowed(data[key..keyEnd]);
  }

  lemma OnlySelectorsAreRequested(key: string, value: string)
    ensures !IsSelector(key) ==> Requested(key, value) == Nothing
  {
  }

  lemma NoAssignment(text: string)
    requires text == [] || text[0] == '#' || IndexOf(text, '=') == |text|
    ensures TrimmedEffect(text) == Nothing
  {
  }

  /** A trimmed line with `=` at `equals` asks for what its two parts say. */
  lemma AssignmentEffect(text: string, key: string, value: string, equals: nat)
    requires text != [] && text[0] != '#' && equals == IndexOf(text, '=') < |text|
    requires key == text[..equals] && value == text[equals + 1..]
    ensures TrimmedEffect(text) == Requested(Trim(key), Trim(value))
  {
  }

  /** A selector is short, and holds nothing the scan treats specially. */
  lemma SelectorShape(key: string)
    requires IsSelector(key)
    ensures 0 < |key| <= |RF_TOPOLOGY| && key[0] == 'r' && !IsTrailing(key[|key| - 1])
    ensures '=' !in key && '\n' !in key && '\0' !in key
  {
  }

  /** A local buffer with a copy and its terminator, as `memcpy` and the store after it leave it. */
  method Terminated(data: array<char>, from: nat, n: nat, size: nat) returns (buffer: array<char>)
    requires n < size && from + n <= data.Length
    ensures fresh(buffer)
    ensures '\0' in buffer[..] && CString(buffer[..]) == CString(data[from..from + n])
  {
    buffer := new char[size];
    MemCopy(buffer, data, from, n);
    buffer[n] := '\0';
    assert buffer[..][n] == '\0';
    assert buffer[..][..n] == data[from..from + n];
    CStringOf(buffer[..], n);
  }

  // ---------------------------------------------------------------------
  // What an import can do.

  /** Variables after the assignments, oldest first. */
  function Apply(env: Environment, assignments: seq<(string, string)>, keeps: bool)
    : Environment
  {
    if assignments == [] then env
    else
      var last := assignments[|assignments| - 1];
      StoreOne(Apply(env, assignments[..|assignments| - 1], keeps), last.0, last.1, keeps)
  }

  /** An assignment that one of the effects asks for. */
  predicate IsAskedFor(a: (string, string), effects: seq<Effect>) {
    exists i :: 0 <= i < |effects| && effects[i] == Assign(a.0, a.1)
  }

  lemma AskedForInMore(a: (string, string), effects: seq<Effect>)
    requires effects != [] && IsAskedFor(a, effects[1..])
    ensures IsAskedFor(a, effects)
  {
    var i :| 0 <= i < |effects[1..]| && effects[1..][i] == Assign(a.0, a.1);
    assert effects[i + 1] == effects[1..][i];
  }

  lemma {:induction false} OnlyAskedFor(accepts: nat -> bool, log: Log, effects: seq<Effect>)
    ensures var end := Import(accepts, log, effects).0.assignments;
            && log.assignments <= end
            && forall i :: |log.assignments| <= i < |end| ==> IsAskedFor(end[i], effects)
    decreases |effects|
  {
    if effects != [] {
      var (next, goesOn) := Perform(accepts, log, effects[0]);
      if goesOn {
        var end := Import(accepts, next, effects[1..]).0.assignments;
        OnlyAskedFor(accepts, next, effects[1..]);
        forall i | |log.assignments| <= i < |end|
          ensures IsAskedFor(end[i], effects)
        {
          if i < |next.assignments| {
            assert effects[0] == Assign(end[i].0, end[i].1);
          } else {
            AskedForInMore(end[i], effects);
          }
        }
      }
    }
  }

  lemma EffectIsLocked(line: string)
    ensures var e := LineEffect(line);
            e.Assign? ==> IsSelector(e.key) && |e.value| < MAX_VALUE_LENGTH
  {
  }

  /** Assignments are only ever added, each to one of the two selectors, with a short value some line asks for. */
  lemma ImportIsLocked(accepts: nat -> bool, log: Log, text: string)
    ensures var end := Import(accepts, log, TextEffects(text)).0.assignments;
            && log.assignments <= end
            && forall i :: |log.assignments| <= i < |end| ==>
                 IsAskedFor(end[i], TextEffects(text)) && IsSelector(end[i].0) && |end[i].1| < MAX_VALUE_LENGTH
  {
    var end, lines := Import(accepts, log, TextEffects(text)).0.assignments, Lines(text);
    OnlyAskedFor(accepts, log, TextEffects(text));
    forall i | |log.assignments| <= i < |end|
      ensures IsSelector(end[i].0) && |end[i].1| < MAX_VALUE_LENGTH
    {
      var j :| 0 <= j < |lines| && TextEffects(text)[j] == Assign(end[i].0, end[i].1);
      EffectIsLocked(lines[j]);
    }
  }

  lemma {:induction false} OtherVariablesStand(
    env: Environment, assignments: seq<(string, string)>, keeps: bool, name: string)
    requires forall i :: 0 <= i < |assignments| ==> assignments[i].0 != name
    ensures Lookup(Apply(env, assignments, keeps), name) == Lookup(env, name)
    decreases |assignments|
  {
    if assignments != [] {
      OtherVariablesStand(env, assignments[..|assignments| - 1], keeps, name);
    }
  }

  /** So no other variable changes, whatever the text and whichever calls fail. */
  lemma OnlySelectorsChange(
    accepts: nat -> bool, env: Environment, text: string, keeps: bool, name: string)
    requires !IsSelector(name)
    ensures Lookup(Apply(env, Import(accepts, Log([], 0), TextEffects(text)).0.assignments, keeps), name)
         == Lookup(env, name)
  {
    ImportIsLocked(accepts, Log([], 0), text);
    OtherVariablesStand(env, Import(accepts, Log([], 0), TextEffects(text)).0.assignments, keeps, name);
  }

  /** And a selector has the value of its last accepted assignment, or none if that is empty and not kept. */
  lemma {:induction false} LastAssignmentHolds(
    env: Environment, assignments: seq<(string, string)>, keeps: bool, i: nat)
    requires i < |assignments| && forall j :: i < j < |assignments| ==> assignments[j].0 != assignments[i].0
    ensures Lookup(Apply(env, assignments, keeps), assignments[i].0) == Kept(assignments[i].1, keeps)
    decreases |assignments|
  {
    if i < |assignments| - 1 {
      LastAssignmentHolds(env, assignments[..|assignments| - 1], keeps, i);
    }
  }

  /** Assignments asked for before the first oversized value. */
  function Asked(effects: seq<Effect>): seq<(string, string)>
    decreases |effects|
  {
    if effects == [] then []
    else
      match effects[0]
      case Nothing => Asked(effects[1..])
      case Oversized => []
      case Assign(key, value) => [(key, value)] + Asked(effects[1..])
  }

  predicate NoneOversized(effects: seq<Effect>) {
    forall i :: 0 <= i < |effects| ==> !effects[i].Oversized?
  }

  /** How many of `n` calls to setenv succeed before the first that fails, counting calls from `from`. */
  function Granted(accepts: nat -> bool, from: nat, n: nat): (m: nat)
    ensures m <= n
    ensures forall call :: from <= call < from + m ==> accepts(call)
    ensures m < n ==> !accepts(from + m)
    decreases n
  {
    if n == 0 || !accepts(from) then 0 else 1 + Granted(accepts, from + 1, n - 1)
  }

  /**
   Whichever calls to setenv fail: of the assignments asked for before the first
   oversized value, exactly those before the first failure are made, and the
   import succeeds exactly when all are and no value is oversized.
   */
  lemma {:induction false} OversizedStops(accepts: nat -> bool, log: Log, effects: seq<Effect>)
    ensures var (end, ok) := Import(accepts, log, effects);
            var asked := Asked(effects);
            var m := Granted(accepts, log.calls, |asked|);
            && end.assignments == log.assignments + asked[..m]
            && end.calls == log.calls + m + (if m < |asked| then 1 else 0)
            && (ok <==> m == |asked| && NoneOversized(effects))
    decreases |effects|
  {
    if effects != [] {
      var effect, rest := effects[0], effects[1..];
      FirstOversized(effects);
      if effect.Nothing? {
        OversizedStops(accepts, log, rest);
      } else if effect.Assign? && accepts(log.calls) {
        var next := Assigned(log, effect.key, effect.value);
        OversizedStops(accepts, next, rest);
        var m := Granted(accepts, next.calls, |Asked(rest)|);
        PutFirst(log.assignments, (effect.key, effect.value), Asked(rest), m);
      }
    }
  }

  lemma FirstOversized(effects: seq<Effect>)
    requires effects != []
    ensures NoneOversized(effects) <==> !effects[0].Oversized? && NoneOversized(effects[1..])
  {
    if NoneOversized(effects[1..]) && !effects[0].Oversized? {
      assert forall i :: 0 < i < |effects| ==> effects[i] == effects[1..][i - 1];
    }
  }

  lemma PutFirst<T>(before: seq<T>, x: T, rest: seq<T>, m: nat)
    requires m <= |rest|
    ensures (before + [x]) + rest[..m] == before + ([x] + rest)[..m + 1]
  {
  }

  // ---------------------------------------------------------------------
  // Trimming, and the effect of a written assignment.

  /** Trimming the end stops inside the text, or reaches what stands before it. */
  lemma {:induction false} TrimEndAfter(before: string, text: string)
    ensures TrimEnd(IsTrailing, before + text)
         == if TrimEnd(IsTrailing, text) == [] then TrimEnd(IsTrailing, before) else before + TrimEnd(IsTrailing, text)
    decreases |text|
  {
    var whole := before + text;
    if text == [] {
      assert whole == before;
    } else if IsTrailing(text[|text| - 1]) {
      assert whole[..|whole| - 1] == before + text[..|text| - 1];
      TrimEndAfter(before, text[..|text| - 1]);
    }
  }

  lemma {:induction false} TrimEndIsTrimmed(text: string)
    ensures var t := TrimEnd(IsTrailing, text);
            t != [] ==> !IsTrailing(t[|t| - 1])
    decreases |text|
  {
    if text != [] && IsTrailing(text[|text| - 1]) {
      TrimEndIsTrimmed(text[..|text| - 1]);
    }
  }

  /** The two ends are trimmed independently. */
  lemma {:induction false} TrimEndFirst(text: string)
    ensures TrimStart(IsBlank, TrimEnd(IsTrailing, text)) == Trim(text)
    decreases |text|
  {
    if text != [] {
      var rest := text[1..];
      assert text == text[..1] + rest;
      TrimEndAfter(text[..1], rest);
      if IsBlank(text[0]) {
        TrimEndFirst(rest);
        BlankIsTrimmed(text[..1], rest);
      }
    }
  }

  lemma BlankIsTrimmed(blank: string, rest: string)
    requires |blank| == 1 && IsBlank(blank[0])
    ensures TrimEnd(IsTrailing, blank) == []
    ensures TrimStart(IsBlank, blank + TrimEnd(IsTrailing, rest)) == TrimStart(IsBlank, TrimEnd(IsTrailing, rest))
  {
    assert blank[..0] == [];
    assert (blank + TrimEnd(IsTrailing, rest))[1..] == TrimEnd(IsTrailing, rest);
  }

  lemma TrimOfTrimmedEnd(text: string)
    ensures Trim(TrimEnd(IsTrailing, text)) == Trim(text)
  {
    TrimEndFirst(text);
    TrimEndFirst(TrimEnd(IsTrailing, text));
    TrimEndIsTrimmed(text);
  }

  /** A line that assigns any value without a line end asks for the value trimmed. */
  lemma AssignmentLine(key: string, value: string)
    requires IsSelector(key)
    ensures LineEffect(Assignment(key, value)) == Setting(key, Trim(value))
  {
    var rest := TrimEnd(IsTrailing, value);
    var text := Assignment(key, rest);
    SelectorShape(key);
    TrimAssignment(key, value);
    IndexOfSplit(key, '=', rest);
    assert text[..|key|] == key && text[|key| + 1..] == rest && text[0] == key[0];
    AssignmentEffect(text, key, rest, |key|);
    TrimPlain(key);
    TrimOfTrimmedEnd(value);
  }

  lemma TrimAssignment(key: string, value: string)
    requires key != [] && !IsBlank(key[0])
    ensures Trim(Assignment(key, value)) == Assignment(key, TrimEnd(IsTrailing, value))
  {
    var before := key + "=";
    assert Assignment(key, value)[0] == key[0] && before[|before| - 1] == '=';
    TrimEndAfter(before, value);
  }

  // ---------------------------------------------------------------------
  // The file the firmware assembly writes.

  /** A value that comes back from a line as it is. */
  predicate IsPlainValue(v: string) {
    && '\n' !in v && '\0' !in v
    && (v != [] ==> !IsBlank(v[0]) && !IsTrailing(v[|v| - 1]))
  }

  lemma TrimPlain(v: string)
    requires v != [] ==> !IsBlank(v[0]) && !IsTrailing(v[|v| - 1])
    ensures Trim(v) == v
  {
  }

  /** Trimming and cutting at a NUL leave alone exactly the plain values. */
  lemma PlainIsUnchanged(v: string)
    requires '\n' !in v
    ensures CString(Trim(v)) == v <==> IsPlainValue(v)
  {
    if IsPlainValue(v) {
      TrimPlain(v);
      NoNul(v);
    }
    if CString(Trim(v)) == v {
      TrimIsShorter(v);
      assert IndexOf(v, '\0') == |v|;
    }
  }

  lemma TrimIsShorter(v: string)
    ensures |CString(Trim(v))| <= |Trim(v)| <= |v|
    ensures Trim(v) == v && v != [] ==> !IsBlank(v[0]) && !IsTrailing(v[|v| - 1])
    ensures |Trim(v)| == |v| ==> Trim(v) == v
  {
    if |Trim(v)| == |v| {
      assert |TrimStart(IsBlank, v)| == |v|;
      assert TrimStart(IsBlank, v) == v;
    }
  }

  /** The line that assigns `value` to `key`. */
  function Assignment(key: string, value: string): string {
    key + "=" + value
  }

  function TwoLineText(first: string, second: string): string {
    Text.Terminated(first) + Text.Terminated(second)
  }

  function ProfileText(model: string, topology: string): string {
    TwoLineText(Assignment(RF_MODEL, model), Assignment(RF_TOPOLOGY, topology))
  }

  lemma TwoLineEffects(first: string, second: string)
    requires '\n' !in first && '\n' !in second
    ensures TextEffects(TwoLineText(first, second)) == [LineEffect(first), LineEffect(second)]
  {
    SingleLine(first);
    SingleLine(second);
    LinesConcat(Text.Terminated(first), Text.Terminated(second));
    EffectsOfTwo(Lines(TwoLineText(first, second)), first, second);
  }

  lemma EffectsOfTwo(lines: seq<string>, first: string, second: string)
    requires lines == [first] + [second]
    ensures Effects(lines) == [LineEffect(first), LineEffect(second)]
  {
  }

  lemma AssignmentIsSingle(key: string, value: string)
    requires IsSelector(key)
    ensures '\n' in Assignment(key, value) <==> '\n' in value
  {
    SelectorShape(key);
    if '\n' in value {
      var i :| 0 <= i < |value| && value[i] == '\n';
      assert Assignment(key, value)[|key| + 1 + i] == '\n';
    }
  }

  /** Two settings in order, whichever calls fail. */
  lemma TwoSettings(accepts: nat -> bool, log: Log, a: string, x: string, b: string, y: string)
    ensures var (end, ok) := Import(accepts, log, [Setting(a, x), Setting(b, y)]);
            && (ok <==> |x| < MAX_VALUE_LENGTH && |y| < MAX_VALUE_LENGTH && accepts(log.calls) && accepts(log.calls + 1))
            && end.assignments == log.assignments
               + (if |x| >= MAX_VALUE_LENGTH || !accepts(log.calls) then []
                  else if |y| >= MAX_VALUE_LENGTH || !accepts(log.calls + 1) then [(a, CString(x))]
                  else [(a, CString(x)), (b, CString(y))])
  {
    var first, second := Setting(a, x), Setting(b, y);
    ImportFirst(accepts, log, [first, second], first, [second]);
    var (next, goesOn) := Perform(accepts, log, first);
    ImportFirst(accepts, next, [second], second, []);
  }

  /**
   What the written pair leaves, for values without a line end: a long or
   refused model stops before anything is set, a long or refused topology after
   the model is.
   */
  lemma ProfileStops(accepts: nat -> bool, log: Log, model: string, topology: string)
    requires '\n' !in model && '\n' !in topology
    ensures var (end, ok) := Import(accepts, log, TextEffects(ProfileText(model, topology)));
            var modelSet := |Trim(model)| < MAX_VALUE_LENGTH && accepts(log.calls);
            var topologySet := |Trim(topology)| < MAX_VALUE_LENGTH && accepts(log.calls + 1);
            && (ok <==> modelSet && topologySet)
            && end.assignments == log.assignments
               + (if !modelSet then []
                  else if !topologySet then [(RF_MODEL, CString(Trim(model)))]
                  else [(RF_MODEL, CString(Trim(model))), (RF_TOPOLOGY, CString(Trim(topology)))])
  {
    PairEffect(RF_MODEL, model, RF_TOPOLOGY, topology);
    TwoSettings(accepts, log, RF_MODEL, Trim(model), RF_TOPOLOGY, Trim(topology));
  }

  lemma PairEffect(a: string, v: string, b: string, w: string)
    requires IsSelector(a) && IsSelector(b) && '\n' !in v && '\n' !in w
    ensures TextEffects(TwoLineText(Assignment(a, v), Assignment(b, w))) == [Setting(a, Trim(v)), Setting(b, Trim(w))]
  {
    AssignmentIsSingle(a, v);
    AssignmentIsSingle(b, w);
    TwoLineEffects(Assignment(a, v), Assignment(b, w));
    AssignmentLine(a, v);
    AssignmentLine(b, w);
  }

  lemma EffectIsSingleLine(line: string)
    requires '\n' !in line
    ensures var e := LineEffect(line);
            e.Assign? ==> '\n' !in e.value
  {
    TrimAddsNothing(line);
    var text := Trim(line);
    var equals := IndexOf(text, '=');
    if equals < |text| {
      TrimAddsNothing(text[equals + 1..]);
    }
  }

  lemma TrimAddsNothing(text: string)
    requires '\n' !in text
    ensures '\n' !in Trim(text)
  {
    TrimStartAddsNothing(IsBlank, text, '\n');
    TrimEndAddsNothing(IsTrailing, TrimStart(IsBlank, text), '\n');
  }

  /** No value with a line end is ever assigned. */
  lemma AssignedIsSingleLine(accepts: nat -> bool, log: Log, text: string, i: nat)
    requires var end := Import(accepts, log, TextEffects(text)).0.assignments;
             |log.assignments| <= i < |end|
    ensures '\n' !in Import(accepts, log, TextEffects(text)).0.assignments[i].1
  {
    var a := Import(accepts, log, TextEffects(text)).0.assignments[i];
    var lines := Lines(text);
    OnlyAskedFor(accepts, log, TextEffects(text));
    var j :| 0 <= j < |lines| && TextEffects(text)[j] == Assign(a.0, a.1);
    LinesAreSingle(text);
    EffectIsSingleLine(lines[j]);
  }

  /**
   Round trip, for every pair of values: it is recovered, whole and as the only
   assignments, exactly when both values are plain and under 32 characters and
   both calls succeed.
   */
  lemma ProfileIsRecovered(accepts: nat -> bool, log: Log, model: string, topology: string)
    ensures var (end, ok) := Import(accepts, log, TextEffects(ProfileText(model, topology)));
            ok && end.assignments == log.assignments + [(RF_MODEL, model), (RF_TOPOLOGY, topology)]
            <==> && IsPlainValue(model) && IsPlainValue(topology)
                 && |model| < MAX_VALUE_LENGTH && |topology| < MAX_VALUE_LENGTH
                 && accepts(log.calls) && accepts(log.calls + 1)
  {
    PairIsRecovered(accepts, log, RF_MODEL, model, RF_TOPOLOGY, topology);
  }

  lemma PairIsRecovered(accepts: nat -> bool, log: Log, a: string, v: string, b: string, w: string)
    requires IsSelector(a) && IsSelector(b)
    ensures var (end, ok) := Import(accepts, log, TextEffects(TwoLineText(Assignment(a, v), Assignment(b, w))));
            ok && end.assignments == log.assignments + [(a, v), (b, w)]
            <==> && IsPlainValue(v) && IsPlainValue(w) && |v| < MAX_VALUE_LENGTH && |w| < MAX_VALUE_LENGTH
                 && accepts(log.calls) && accepts(log.calls + 1)
  {
    var text := TwoLineText(Assignment(a, v), Assignment(b, w));
    var before := log.assignments;
    if '\n' in v || '\n' in w {
      var end := Import(accepts, log, TextEffects(text)).0.assignments;
      if end == before + [(a, v), (b, w)] {
        AssignedIsSingleLine(accepts, log, text, |before|);
        AssignedIsSingleLine(accepts, log, text, |before| + 1);
      }
    } else {
      var (end, ok) := Import(accepts, log, TextEffects(text));
      PairEffect(a, v, b, w);
      TwoSettings(accepts, log, a, Trim(v), b, Trim(w));
      PairIsUnchanged(before, a, v, b, w);
      assert ok ==> end.assignments == before + [(a, CString(Trim(v))), (b, CString(Trim(w)))];
    }
  }

  lemma PairIsUnchanged(before: seq<(string, string)>, a: string, v: string, b: string, w: string)
    requires '\n' !in v && '\n' !in w
    ensures before + [(a, CString(Trim(v))), (b, CString(Trim(w)))] == before + [(a, v), (b, w)]
       <==> IsPlainValue(v) && IsPlainValue(w)
    ensures IsPlainValue(v) ==> Trim(v) == v
    ensures IsPlainValue(w) ==> Trim(w) == w
  {
    PlainIsUnchanged(v);
    PlainIsUnchanged(w);
    var got, wanted := before + [(a, CString(Trim(v))), (b, CString(Trim(w)))], before + [(a, v), (b, w)];
    assert got[|before|] == (a, CString(Trim(v))) && got[|before| + 1] == (b, CString(Trim(w)));
    assert wanted[|before|] == (a, v) && wanted[|before| + 1] == (b, w);
    if IsPlainValue(v) {
      TrimPlain(v);
    }
    if IsPlainValue(w) {
      TrimPlain(w);
    }
  }
}
