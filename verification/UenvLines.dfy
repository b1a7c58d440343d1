/**
 What a line of the uEnv text says, with the names, the blanks and the limit
 written out, and the importer's results in these terms.
 */
module UenvLines {
  import opened Text
  import opened Uenv

  predicate AreBlanks(text: string) {
    forall k :: 0 <= k < |text| ==> text[k] == ' ' || text[k] == '\t'
  }

  predicate AreBlanksOrReturns(text: string) {
    forall k :: 0 <= k < |text| ==> text[k] == ' ' || text[k] == '\t' || text[k] == '\r'
  }

  /** Nothing to trim. */
  predicate IsTight(text: string) {
    text != [] ==>
      && text[0] != ' ' && text[0] != '\t'
      && text[|text| - 1] != ' ' && text[|text| - 1] != '\t' && text[|text| - 1] != '\r'
  }

  lemma BlanksAreEach(text: string)
    ensures AreBlanks(text) <==> Each(IsBlank, text)
    ensures AreBlanksOrReturns(text) <==> Each(IsTrailing, text)
  {
  }

  lemma TightIsTrimmed(lead: string, text: string, trail: string)
    requires AreBlanks(lead) && AreBlanksOrReturns(trail) && IsTight(text)
    requires text == [] ==> trail == []
    ensures Trim(lead + text + trail) == text
  {
    BlanksAreEach(lead);
    BlanksAreEach(trail);
    assert lead + text + trail == lead + (text + trail);
    TrimStartDrops(IsBlank, lead, text + trail);
    TrimEndDrops(IsTrailing, text, trail);
  }

  lemma PutTogether(text: string, lead: string, core: string, rest: string, trail: string)
    requires text == lead + rest && rest == core + trail && Each(IsBlank, lead) && Each(IsTrailing, trail)
    requires (rest != [] ==> !IsBlank(rest[0])) && (core != [] ==> !IsTrailing(core[|core| - 1]))
    ensures text == lead + core + trail && AreBlanks(lead) && AreBlanksOrReturns(trail) && IsTight(core)
  {
    BlanksAreEach(lead);
    BlanksAreEach(trail);
    if core != [] {
      assert rest[0] == core[0];
    }
  }

  lemma TrimSplit(text: string) returns (lead: string, trail: string)
    ensures text == lead + Trim(text) + trail && AreBlanks(lead) && AreBlanksOrReturns(trail)
    ensures IsTight(Trim(text))
  {
    lead := TrimStartSplit(IsBlank, text);
    trail := TrimEndSplit(IsTrailing, TrimStart(IsBlank, text));
    PutTogether(text, lead, Trim(text), TrimStart(IsBlank, text), trail);
  }

  /** A name, a first `=` and a value, with blanks anywhere around them. */
  datatype Assignment = Assignment(lead: string, key: string, before: string, after: string, value: string, trail: string) {
    predicate IsWritten(line: string) {
      && line == lead + (key + before + "=" + after + value) + trail
      && AreBlanks(lead) && AreBlanksOrReturns(before) && AreBlanks(after) && AreBlanksOrReturns(trail)
      && IsTight(key) && IsTight(value) && '=' !in key
    }
  }

  predicate IsName(key: string) {
    key == "rf_model" || key == "rf_topology"
  }

  lemma NamesAreTight(key: string)
    requires IsName(key)
    ensures IsSelector(key) && IsTight(key) && key != [] && key[0] != '#' && '=' !in key
  {
  }

  /** What is left of such a line once trimmed. */
  lemma TrimmedAssignment(line: string, a: Assignment)
    requires a.IsWritten(line) && IsName(a.key)
    ensures Trim(line) == (a.key + a.before) + ['='] + (if a.value == [] then [] else a.after + a.value)
  {
    NamesAreTight(a.key);
    var left := a.key + a.before;
    if a.value == [] {
      assert line == a.lead + (left + ['=']) + (a.after + a.trail);
      TightIsTrimmed(a.lead, left + ['='], a.after + a.trail);
      assert left + ['='] + [] == left + ['='];
    } else {
      var text := left + ['='] + (a.after + a.value);
      assert line == a.lead + text + a.trail;
      assert text[|text| - 1] == a.value[|a.value| - 1] && text[0] == a.key[0];
      TightIsTrimmed(a.lead, text, a.trail);
    }
  }

  lemma PartsOfAssignment(key: string, before: string, after: string, value: string)
    requires IsName(key) && AreBlanksOrReturns(before) && AreBlanks(after) && IsTight(value)
    ensures TrimmedEffect((key + before) + ['='] + (after + value))
         == if |value| >= 32 then Oversized else Assign(key, CString(value))
  {
    NamesAreTight(key);
    var left, right := key + before, after + value;
    var text := left + ['='] + right;
    IndexOfSplit(left, '=', right);
    assert text[..|left|] == left && text[|left| + 1..] == right && text[0] == key[0];
    assert [] + key + before == left && after + value + [] == right;
    TightIsTrimmed([], key, before);
    TightIsTrimmed(after, value, []);
  }

  /** A line that assigns to one of the names says so: too much at 32 characters, else the value up to a NUL. */
  lemma NamedLine(line: string, a: Assignment)
    requires a.IsWritten(line) && IsName(a.key)
    ensures LineEffect(line) == if |a.value| >= 32 then Oversized else Assign(a.key, CString(a.value))
  {
    TrimmedAssignment(line, a);
    if a.value == [] {
      PartsOfAssignment(a.key, a.before, [], a.value);
      assert [] + a.value == [];
    } else {
      PartsOfAssignment(a.key, a.before, a.after, a.value);
    }
  }

  lemma Assemble(
    line: string, lead: string, text: string, trail: string, left: string, right: string,
    start: string, key: string, before: string, after: string, value: string, end: string)
    requires line == lead + text + trail && text == left + "=" + right
    requires left == start + key + before && right == after + value + end
    requires AreBlanks(lead) && AreBlanks(start) && AreBlanksOrReturns(before)
    requires AreBlanks(after) && AreBlanksOrReturns(end) && AreBlanksOrReturns(trail)
    requires IsTight(key) && IsTight(value) && '=' !in key
    ensures Assignment(lead + start, key, before, after, value, end + trail).IsWritten(line)
  {
    assert line == lead + (start + key + before + "=" + (after + value + end)) + trail;
  }

  lemma PartHasNone(start: string, key: string, before: string, c: char)
    requires c !in start + key + before
    ensures c !in key
  {
  }

  /** And a line says nothing unless it is written so. */
  lemma OtherLine(line: string) returns (a: Assignment)
    requires LineEffect(line) != Nothing
    ensures a.IsWritten(line) && IsName(a.key)
  {
    var lead, trail := TrimSplit(line);
    var text := Trim(line);
    var equals := IndexOf(text, '=');
    var left, right := text[..equals], text[equals + 1..];
    var start, before := TrimSplit(left);
    var after, end := TrimSplit(right);
    assert text == left + "=" + right;
    PartHasNone(start, Trim(left), before, '=');
    Assemble(line, lead, text, trail, left, right, start, Trim(left), before, after, Trim(right), end);
    a := Assignment(lead + start, Trim(left), before, after, Trim(right), end + trail);
  }

  // ---------------------------------------------------------------------
  // The import in these terms.

  /** Assignments are only added, each to `rf_model` or `rf_topology` and shorter than 32 characters. */
  lemma OnlyTheTwoNames(accepts: nat -> bool, log: Log, text: string)
    ensures var end := Import(accepts, log, TextEffects(text)).0.assignments;
            && log.assignments <= end
            && forall i :: |log.assignments| <= i < |end| ==> IsName(end[i].0) && |end[i].1| < 32
  {
    ImportIsLocked(accepts, log, text);
  }

  /** A value that comes back whole. */
  predicate ComesBack(value: string) {
    '\n' !in value && '\0' !in value && IsTight(value) && |value| < 32
  }

  /** The two lines of the firmware profile are recovered exactly when both values come back and both calls succeed. */
  lemma ProfileComesBack(accepts: nat -> bool, log: Log, model: string, topology: string)
    ensures var text := "rf_model=" + model + "\n" + ("rf_topology=" + topology + "\n");
            var (end, ok) := Import(accepts, log, TextEffects(text));
            ok && end.assignments == log.assignments + [("rf_model", model), ("rf_topology", topology)]
            <==> ComesBack(model) && ComesBack(topology) && accepts(log.calls) && accepts(log.calls + 1)
  {
    ProfileIsWritten(model, topology);
    ProfileIsRecovered(accepts, log, model, topology);
  }

  lemma ProfileIsWritten(model: string, topology: string)
    ensures ProfileText(model, topology) == "rf_model=" + model + "\n" + ("rf_topology=" + topology + "\n")
  {
    assert RF_MODEL + "=" == "rf_model=" && RF_TOPOLOGY + "=" == "rf_topology=";
  }
}
