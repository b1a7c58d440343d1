/**
 What a line of the configuration file says, with blanks, comment signs and the
 letters of a section written out.  Every line is of one of the kinds here.
 */
module ConfigLines {
  import opened Text
  import opened ConfigFile

  predicate IsBlankChar(c: char) {
    c as int in {9, 10, 11, 12, 13, 32}
  }

  predicate AreBlank(text: string) {
    forall k :: 0 <= k < |text| ==> IsBlankChar(text[k])
  }

  /** No blank at either end. */
  predicate IsTight(text: string) {
    text != [] ==> !IsBlankChar(text[0]) && !IsBlankChar(text[|text| - 1])
  }

  lemma BlanksAgree(c: char)
    ensures IsBlankChar(c) <==> IsSpace(c)
  {
  }

  lemma BlankIsSpace(text: string)
    requires AreBlank(text)
    ensures Each(IsSpace, text)
  {
    forall k | 0 <= k < |text|
      ensures IsSpace(text[k])
    {
      BlanksAgree(text[k]);
    }
  }

  lemma TightIsNeat(text: string)
    requires IsTight(text)
    ensures IsNeat(text)
  {
    if text != [] {
      BlanksAgree(text[0]);
      BlanksAgree(text[|text| - 1]);
    }
  }

  lemma TrimBlank(lead: string, text: string, trail: string)
    requires AreBlank(lead) && AreBlank(trail) && IsTight(text)
    ensures Trim(lead + text + trail) == text
  {
    BlankIsSpace(lead);
    TightIsNeat(text);
    if text == [] {
      TrimAllBlank(lead + trail);
      assert lead + text + trail == lead + trail;
    } else {
      var shorter := DropReturn(trail);
      assert AreBlank(shorter);
      BlankIsSpace(shorter);
      DropReturnAfter(lead + text, trail);
      assert lead + text + shorter == lead + (text + shorter);
      TrimStartDrops(IsSpace, lead, text + shorter);
      TrimEndDrops(IsSpace, text, shorter);
    }
  }

  lemma DropReturnAfter(text: string, trail: string)
    requires text != [] && !IsSpace(text[|text| - 1])
    ensures DropReturn(text + trail) == text + DropReturn(trail)
  {
    var whole := text + trail;
    if trail == [] {
      assert whole == text && text + DropReturn(trail) == text;
    } else {
      assert whole[|whole| - 1] == trail[|trail| - 1];
      assert whole[..|whole| - 1] == text + trail[..|trail| - 1];
    }
  }

  lemma TrimAllBlank(blank: string)
    requires AreBlank(blank)
    ensures Trim(blank) == []
  {
    var shorter := DropReturn(blank);
    assert AreBlank(shorter);
    BlankIsSpace(shorter);
    assert shorter + [] == shorter;
    TrimStartDrops(IsSpace, shorter, []);
  }

  predicate IsSectionLetter(c: char) {
    c in {
      'A', 'B', 'C', 'D', 'E', 'F', 'G', 'H', 'I', 'J', 'K', 'L', 'M',
      'N', 'O', 'P', 'Q', 'R', 'S', 'T', 'U', 'V', 'W', 'X', 'Y', 'Z', '_'
    }
  }

  /** A name in brackets, of capitals and underscores. */
  predicate IsBracketed(text: string, name: string) {
    text == "[" + name + "]" && name != [] && forall k :: 0 <= k < |name| ==> IsSectionLetter(name[k])
  }

  lemma SectionLettersAgree(c: char)
    ensures IsSectionLetter(c) <==> IsSectionChar(c)
  {
  }

  lemma BracketedIsHeading(text: string, name: string)
    requires IsBracketed(text, name)
    ensures IsHeading(text) && text[1..|text| - 1] == name
  {
    assert text[1..|text| - 1] == name;
    forall i | 1 <= i < |text| - 1
      ensures IsSectionChar(text[i])
    {
      assert text[i] == name[i - 1];
      SectionLettersAgree(name[i - 1]);
    }
  }

  lemma HeadingIsBracketed(text: string)
    requires IsHeading(text)
    ensures IsBracketed(text, text[1..|text| - 1])
  {
    var name := text[1..|text| - 1];
    forall k | 0 <= k < |name|
      ensures IsSectionLetter(name[k])
    {
      SectionLettersAgree(text[k + 1]);
    }
    assert text == "[" + name + "]";
  }

  /** Blank lines and comments say nothing. */
  lemma CommentLine(lead: string, text: string, trail: string)
    requires AreBlank(lead) && AreBlank(trail) && IsTight(text)
    requires text == [] || text[0] == '#' || text[0] == ';'
    ensures LineOf(lead + text + trail) == Skipped
  {
    TrimBlank(lead, text, trail);
  }

  lemma SectionLine(lead: string, text: string, name: string, trail: string)
    requires AreBlank(lead) && AreBlank(trail) && IsBracketed(text, name)
    ensures LineOf(lead + text + trail) == NewSection(name)
  {
    TrimBlank(lead, text, trail);
    BracketedIsHeading(text, name);
  }

  /** A key, a first `=` and a value, with blanks anywhere around them. */
  lemma KeyLine(lead: string, key: string, before: string, after: string, value: string, trail: string)
    requires AreBlank(lead) && AreBlank(before) && AreBlank(after) && AreBlank(trail)
    requires IsTight(key) && IsTight(value) && '=' !in key
    requires key != [] && key[0] != '#' && key[0] != ';'
    ensures LineOf(lead + (key + before + "=" + after + value) + trail) == Assigning(key, value)
  {
    var left, right := key + before, after + value;
    if value == [] {
      TrimBlank(lead, left + "=", after + trail);
      assert lead + (left + "=" + after + value) + trail == lead + (left + "=") + (after + trail);
      KeyParts(key, before, [], value);
      assert left + "=" + [] + value == left + "=";
    } else {
      var text := left + "=" + after + value;
      assert text[|text| - 1] == value[|value| - 1];
      TrimBlank(lead, text, trail);
      KeyParts(key, before, after, value);
    }
  }

  lemma KeyParts(key: string, before: string, after: string, value: string)
    requires AreBlank(before) && AreBlank(after) && IsTight(key) && IsTight(value) && '=' !in key
    requires key != [] && key[0] != '#' && key[0] != ';'
    ensures LineOfTrimmed(key + before + "=" + after + value) == Assigning(key, value)
  {
    var left, right := key + before, after + value;
    var text := key + before + "=" + after + value;
    assert text == left + ['='] + right;
    IndexOfSplit(left, '=', right);
    assert text[..|left|] == left && text[|left| + 1..] == right;
    assert [] + key + before == left && after + value + [] == right;
    TrimBlank([], key, before);
    TrimBlank(after, value, []);
    assert text[0] == key[0];
    NoHeadingHas(text, |left|);
  }

  lemma NoHeadingHas(text: string, i: nat)
    requires i < |text| && text[i] == '='
    ensures !IsHeading(text)
  {
    assert !IsSectionChar(text[i]);
  }

  /** And any other line says nothing. */
  lemma OtherLine(lead: string, text: string, trail: string)
    requires AreBlank(lead) && AreBlank(trail) && IsTight(text)
    requires '=' !in text && forall name :: !IsBracketed(text, name)
    ensures LineOf(lead + text + trail) == Skipped
  {
    TrimBlank(lead, text, trail);
    IndexOfNone(text, '=');
    if IsHeading(text) {
      HeadingIsBracketed(text);
    }
  }

  // ---------------------------------------------------------------------
  // Which lines are settings.

  /** The section that `line` is in: the latest one opened before it, or the one the lines start in. */
  predicate InSection(start: string, lines: seq<Line>, line: nat, name: string)
    requires line <= |lines|
  {
    || (start == name && forall k :: 0 <= k < line ==> !lines[k].NewSection?)
    || exists j :: 0 <= j < line && lines[j] == NewSection(name) && forall k :: j < k < line ==> !lines[k].NewSection?
  }

  /** The line gives the key of this setting its value, in its section. */
  predicate IsMadeAt(start: string, lines: seq<Line>, line: nat, made: Setting) {
    && line < |lines| && lines[line] == Assigning(made.key, made.value)
    && InSection(start, lines, line, made.section)
  }

  lemma LaterLine(start: string, lines: seq<Line>, line: nat, made: Setting)
    requires lines != []
    ensures IsMadeAt(SectionAfter(start, lines[0]), lines[1..], line, made) <==> IsMadeAt(start, lines, line + 1, made)
  {
    var rest := lines[1..];
    if line < |rest| {
      assert rest[line] == lines[line + 1];
      LaterSection(start, lines, line, made.section);
    }
  }

  lemma LaterSection(start: string, lines: seq<Line>, line: nat, name: string)
    requires line + 1 < |lines|
    ensures InSection(SectionAfter(start, lines[0]), lines[1..], line, name) <==> InSection(start, lines, line + 1, name)
  {
    var rest := lines[1..];
    assert forall k :: 0 <= k < line ==> rest[k] == lines[k + 1];
    assert forall k :: 1 <= k < line + 1 ==> lines[k] == rest[k - 1];
    if InSection(start, lines, line + 1, name) && !(start == name && forall k :: 0 <= k < line + 1 ==> !lines[k].NewSection?) {
      var j :| 0 <= j < line + 1 && lines[j] == NewSection(name) && forall k :: j < k < line + 1 ==> !lines[k].NewSection?;
      if 0 < j {
        assert rest[j - 1] == NewSection(name) && forall k :: j - 1 < k < line ==> !rest[k].NewSection?;
      }
    }
  }

  /** A setting is read if and only if its key is allowed in its section and some line of that section makes it. */
  lemma {:induction false} SettingsAreLines(allowed: Allowed, start: string, lines: seq<Line>, made: Setting)
    ensures made in SettingsMade(allowed, start, lines)
       <==> allowed(made.section, made.key) && exists line: nat :: IsMadeAt(start, lines, line, made)
    decreases |lines|
  {
    if lines != [] {
      var next := SectionAfter(start, lines[0]);
      SettingsAreLines(allowed, next, lines[1..], made);
      forall line: nat
        ensures IsMadeAt(next, lines[1..], line, made) <==> IsMadeAt(start, lines, line + 1, made)
      {
        LaterLine(start, lines, line, made);
      }
      if exists line: nat :: IsMadeAt(start, lines, line, made) {
        var line: nat :| IsMadeAt(start, lines, line, made);
        if 0 < line {
          assert IsMadeAt(next, lines[1..], line - 1, made);
        }
      }
      assert made in SettingOf(allowed, start, lines[0])
        <==> allowed(made.section, made.key) && IsMadeAt(start, lines, 0, made);
    }
  }
}
