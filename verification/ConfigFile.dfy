/** The configuration file: how it is read, how it is written, and that reading undoes writing. */
module ConfigFile {
  import opened Text

  // ---------------------------------------------------------------------
  // Reading.

  predicate IsSpace(c: char) {
    '\t' <= c <= '\r' || c == ' '
  }

  function DropReturn(text: string): string {
    if text != [] && text[|text| - 1] == '\r' then text[..|text| - 1] else text
  }

  function Trim(text: string): string {
    TrimEnd(IsSpace, TrimStart(IsSpace, DropReturn(text)))
  }

  /** Which keys a section may hold. */
  type Allowed = (string, string) -> bool

  datatype Setting = Setting(section: string, key: string, value: string)

  predicate IsSectionChar(c: char) {
    'A' <= c <= 'Z' || c == '_'
  }

  predicate IsHeading(line: string) {
    && 3 <= |line| && line[0] == '[' && line[|line| - 1] == ']'
    && forall i :: 1 <= i < |line| - 1 ==> IsSectionChar(line[i])
  }

  /** What a line is, once trimmed. */
  datatype Line = Skipped | NewSection(section: string) | Assigning(key: string, value: string)

  function LineOf(text: string): Line {
    LineOfTrimmed(Trim(text))
  }

  function LineOfTrimmed(line: string): Line {
    var separator := IndexOf(line, '=');
    if line == [] || line[0] == '#' || line[0] == ';' then Skipped
    else if IsHeading(line) then NewSection(line[1..|line| - 1])
    else if separator == |line| then Skipped
    else Assigning(Trim(line[..separator]), Trim(line[separator + 1..]))
  }

  function SectionAfter(section: string, line: Line): string {
    if line.NewSection? then line.section else section
  }

  /** The setting a line makes, if its section and key are allowed. */
  function SettingOf(allowed: Allowed, section: string, line: Line): seq<Setting> {
    if line.Assigning? && allowed(section, line.key) then [Setting(section, line.key, line.value)] else []
  }

  function Classified(lines: seq<string>): seq<Line> {
    seq(|lines|, i requires 0 <= i < |lines| => LineOf(lines[i]))
  }

  /** The section in force after some lines. */
  function LastSection(section: string, lines: seq<Line>): string
    decreases |lines|
  {
    if lines == [] then section else LastSection(SectionAfter(section, lines[0]), lines[1..])
  }

  /** The settings that lines make, in order. */
  function SettingsMade(allowed: Allowed, section: string, lines: seq<Line>): seq<Setting>
    decreases |lines|
  {
    if lines == [] then []
    else SettingOf(allowed, section, lines[0]) + SettingsMade(allowed, SectionAfter(section, lines[0]), lines[1..])
  }

  /** The settings of a file. */
  function Parse(allowed: Allowed, text: string): seq<Setting> {
    SettingsMade(allowed, "", Classified(Lines(text)))
  }

  lemma {:induction false} SettingsMadeConcat(allowed: Allowed, section: string, a: seq<Line>, b: seq<Line>)
    ensures LastSection(section, a + b) == LastSection(LastSection(section, a), b)
    ensures SettingsMade(allowed, section, a + b)
         == SettingsMade(allowed, section, a) + SettingsMade(allowed, LastSection(section, a), b)
    decreases |a|
  {
    if a == [] {
      assert a + b == b;
    } else {
      assert (a + b)[1..] == a[1..] + b;
      SettingsMadeConcat(allowed, SectionAfter(section, a[0]), a[1..], b);
    }
  }

  // ---------------------------------------------------------------------
  // Writing.

  datatype Chunk = Note(text: string) | Heading(section: string) | Entry(key: string, value: string)

  function Prefix(key: string): string {
    key + " = "
  }

  function Rendered(c: Chunk): string {
    match c
    case Note(text) => Terminated(text)
    case Heading(section) => Terminated("[" + section + "]")
    case Entry(key, value) => Prefix(key) + Terminated(value)
  }

  function RenderedAll(cs: seq<Chunk>): string {
    Joined(seq(|cs|, i requires 0 <= i < |cs| => Rendered(cs[i])))
  }

  function Joined(texts: seq<string>): string {
    if texts == [] then [] else texts[0] + Joined(texts[1..])
  }

  /** A section of the file, with a blank line before its heading. */
  datatype Block = Block(section: string, entries: seq<(string, string)>)

  function Entries(entries: seq<(string, string)>): seq<Chunk> {
    seq(|entries|, i requires 0 <= i < |entries| => Entry(entries[i].0, entries[i].1))
  }

  function BlockChunks(b: Block): seq<Chunk> {
    [Note(""), Heading(b.section)] + Entries(b.entries)
  }

  function BlocksChunks(bs: seq<Block>): seq<Chunk> {
    if bs == [] then [] else BlockChunks(bs[0]) + BlocksChunks(bs[1..])
  }

  function Notes(comments: seq<string>): seq<Chunk> {
    seq(|comments|, i requires 0 <= i < |comments| => Note(comments[i]))
  }

  /** The text of a file behind its comment lines. */
  function FileText(comments: seq<string>, bs: seq<Block>): string {
    RenderedAll(Notes(comments) + BlocksChunks(bs))
  }

  // ---------------------------------------------------------------------
  // What a written line is.

  /** Text that trimming leaves alone. */
  predicate IsNeat(text: string) {
    text != [] ==> !IsSpace(text[0]) && !IsSpace(text[|text| - 1])
  }

  lemma TrimNeat(text: string)
    requires IsNeat(text)
    ensures Trim(text) == text
  {
  }

  lemma TrimSpaceAfter(text: string)
    requires text != [] && IsNeat(text)
    ensures Trim(text + " ") == text
  {
    assert (text + " ")[..|text|] == text;
    assert TrimEnd(IsSpace, text) == text;
  }

  lemma TrimSpaceBefore(text: string)
    requires IsNeat(text)
    ensures Trim(" " + text) == text
  {
    var line := " " + text;
    assert line[1..] == text;
    assert text != [] ==> line[|line| - 1] == text[|text| - 1];
    assert DropReturn(line) == line;
    assert TrimStart(IsSpace, line) == TrimStart(IsSpace, text) == text;
  }

  predicate IsKey(key: string) {
    key != [] && forall i :: 0 <= i < |key| ==> 'a' <= key[i] <= 'z' || key[i] == '_'
  }

  predicate IsSectionName(name: string) {
    name != [] && forall i :: 0 <= i < |name| ==> IsSectionChar(name[i])
  }

  lemma HeadingLine(name: string)
    requires IsSectionName(name)
    ensures LineOf("[" + name + "]") == NewSection(name) && '\n' !in "[" + name + "]"
  {
    var line := "[" + name + "]";
    TrimNeat(line);
    assert line[1..|line| - 1] == name;
  }

  lemma EntryLine(key: string, value: string)
    requires IsKey(key) && IsNeat(value)
    ensures LineOf(Prefix(key) + value) == Assigning(key, value)
  {
    var after := if value == [] then [] else " " + value;
    var line := (key + " ") + ['='] + after;
    TrimEntry(key, value, line, after);
    TrimmedEntry(key, value, line, after);
  }

  lemma TrimmedEntry(key: string, value: string, line: string, after: string)
    requires IsKey(key) && IsNeat(value) && line == (key + " ") + ['='] + after
    requires after == if value == [] then [] else " " + value
    ensures LineOfTrimmed(line) == Assigning(key, value)
  {
    IndexOfSplit(key + " ", '=', after);
    EntryParts(key, value, line, after);
  }

  lemma EntryIsNeat(key: string, value: string, line: string)
    requires IsKey(key) && IsNeat(value) && value != [] && line == Prefix(key) + value
    ensures Trim(line) == line
  {
    assert line[0] == key[0];
    assert line[|line| - 1] == value[|value| - 1];
    TrimNeat(line);
  }

  lemma EmptyEntry(key: string, line: string)
    requires IsKey(key) && line == (key + " ") + ['=']
    ensures Trim(Prefix(key) + []) == line
  {
    assert Prefix(key) + [] == line + " ";
    assert line[0] == key[0];
    TrimSpaceAfter(line);
  }

  lemma TrimEntry(key: string, value: string, line: string, after: string)
    requires IsKey(key) && IsNeat(value) && line == (key + " ") + ['='] + after
    requires after == if value == [] then [] else " " + value
    ensures Trim(Prefix(key) + value) == line
  {
    if value == [] {
      EmptyEntry(key, line);
    } else {
      assert Prefix(key) + value == line;
      EntryIsNeat(key, value, line);
    }
  }

  lemma EntryParts(key: string, value: string, line: string, after: string)
    requires IsKey(key) && IsNeat(value) && line == (key + " ") + ['='] + after
    requires after == if value == [] then [] else " " + value
    ensures Trim(line[..|key| + 1]) == key && Trim(line[|key| + 2..]) == value
    ensures line[0] == key[0] && !IsHeading(line)
  {
    assert line[..|key| + 1] == key + " " && line[|key| + 2..] == after;
    TrimSpaceAfter(key);
    if value != [] {
      TrimSpaceBefore(value);
    }
  }

  lemma NoteIsSkipped(text: string)
    requires text != [] ==> text[0] == '#'
    ensures LineOf(text) == Skipped
  {
    if text != [] {
      TrimEndKeepsFirst(IsSpace, DropReturn(text));
    }
  }

  // ---------------------------------------------------------------------
  // Values of several lines.

  predicate IsDigit(c: char) {
    '0' <= c <= '9'
  }

  /** A line of digits and dots: what a valid address or netmask has on each of its lines. */
  predicate IsDotted(text: string) {
    text != [] && forall i :: 0 <= i < |text| ==> IsDigit(text[i]) || text[i] == '.'
  }

  lemma DottedIsSkipped(text: string)
    requires IsDotted(text)
    ensures IsNeat(text) && LineOf(text) == Skipped
  {
    TrimNeat(text);
    IndexOfNone(text, '=');
  }

  lemma {:induction false} SkippedMeanNothing(allowed: Allowed, section: string, lines: seq<Line>)
    requires forall i :: 0 <= i < |lines| ==> lines[i] == Skipped
    ensures SettingsMade(allowed, section, lines) == [] && LastSection(section, lines) == section
    decreases |lines|
  {
    if lines != [] {
      SkippedMeanNothing(allowed, section, lines[1..]);
    }
  }

  /** What awk sees of a value that `printf` writes with a line end. */
  function Records(value: string): seq<string> {
    Lines(Terminated(value))
  }

  /** Values of which a written file loses at most what follows a line end. */
  predicate IsExportable(value: string) {
    || ('\n' !in value && IsNeat(value))
    || (forall i :: 0 <= i < |Records(value)| ==> IsDotted(Records(value)[i]))
  }

  lemma FirstOfRecords(value: string)
    ensures Records(value) != [] && Records(value)[0] == FirstLine(value)
  {
    var i := IndexOf(value, '\n');
    assert value + "\n" == value[..i] + ['\n'] + (if i < |value| then value[i + 1..] + "\n" else []);
    IndexOfSplit(value[..i], '\n', if i < |value| then value[i + 1..] + "\n" else []);
    assert (value + "\n")[..i] == value[..i];
  }

  lemma RecordsSplit(value: string, records: seq<string>)
    requires IsExportable(value) && records == Records(value)
    ensures records != [] && records[0] == FirstLine(value) && IsNeat(records[0])
    ensures forall i :: 0 <= i < |records| - 1 ==> IsDotted(records[1..][i])
  {
    FirstOfRecords(value);
    if '\n' !in value && IsNeat(value) {
      SingleLine(value);
    } else {
      DottedIsSkipped(records[0]);
    }
  }

  // ---------------------------------------------------------------------
  // What written chunks are read as.

  predicate IsChunk(c: Chunk) {
    match c
    case Note(text) => '\n' !in text && (text != [] ==> text[0] == '#')
    case Heading(section) => IsSectionName(section)
    case Entry(key, value) => IsKey(key) && IsExportable(value)
  }

  function MeaningOf(c: Chunk): Line {
    match c
    case Note(_) => Skipped
    case Heading(section) => NewSection(section)
    case Entry(key, value) => Assigning(key, FirstLine(value))
  }

  /** Lines that mean what one line means. */
  predicate MeanLine(lines: seq<Line>, line: Line) {
    lines != [] && lines[0] == line && forall i :: 0 < i < |lines| ==> lines[i] == Skipped
  }

  lemma PrefixIsSingle(key: string)
    requires IsKey(key)
    ensures '\n' !in Prefix(key)
  {
  }

  lemma MeanLineOf(first: string, later: seq<string>, line: Line)
    requires LineOf(first) == line && forall i :: 0 <= i < |later| ==> IsDotted(later[i])
    ensures MeanLine(Classified([first] + later), line)
  {
    var lines := [first] + later;
    forall i | 0 < i < |lines|
      ensures LineOf(lines[i]) == Skipped
    {
      assert lines[i] == later[i - 1];
      DottedIsSkipped(lines[i]);
    }
  }

  lemma EntryMeans(key: string, value: string)
    requires IsKey(key) && IsExportable(value)
    ensures MeanLine(Classified(Lines(Prefix(key) + Terminated(value))), Assigning(key, FirstLine(value)))
  {
    var records := Records(value);
    RecordsSplit(value, records);
    PrefixIsSingle(key);
    LinesPrefixed(Prefix(key), Terminated(value));
    EntryLine(key, records[0]);
    MeanLineOf(Prefix(key) + records[0], records[1..], Assigning(key, records[0]));
  }

  lemma ChunkMeans(c: Chunk)
    requires IsChunk(c)
    ensures IsTerminated(Rendered(c)) && MeanLine(Classified(Lines(Rendered(c))), MeaningOf(c))
  {
    match c
    case Note(text) =>
      NoteIsSkipped(text);
      SingleLine(text);
    case Heading(name) =>
      HeadingLine(name);
      SingleLine("[" + name + "]");
    case Entry(key, value) =>
      EntryMeans(key, value);
  }

  lemma MeanLineSettings(allowed: Allowed, section: string, lines: seq<Line>, line: Line)
    requires MeanLine(lines, line)
    ensures SettingsMade(allowed, section, lines) == SettingOf(allowed, section, line)
    ensures LastSection(section, lines) == SectionAfter(section, line)
  {
    SkippedMeanNothing(allowed, SectionAfter(section, line), lines[1..]);
  }

  function Meanings(cs: seq<Chunk>): seq<Line> {
    seq(|cs|, i requires 0 <= i < |cs| => MeaningOf(cs[i]))
  }

  /** Terminated text that is read as one line. */
  predicate IsRead(text: string, line: Line) {
    IsTerminated(text) && MeanLine(Classified(Lines(text)), line)
  }

  lemma ReadFirst(allowed: Allowed, section: string, text: string, line: Line, rest: string, later: seq<Line>)
    requires IsRead(text, line)
    requires SettingsMade(allowed, SectionAfter(section, line), Classified(Lines(rest)))
          == SettingsMade(allowed, SectionAfter(section, line), later)
    ensures SettingsMade(allowed, section, Classified(Lines(text + rest))) == SettingsMade(allowed, section, [line] + later)
  {
    LinesConcat(text, rest);
    ClassifiedConcat(Lines(text), Lines(rest));
    SameMeaning(allowed, section, Classified(Lines(text)), line, Classified(Lines(rest)), later);
  }

  lemma ClassifiedConcat(a: seq<string>, b: seq<string>)
    ensures Classified(a + b) == Classified(a) + Classified(b)
  {
  }

  lemma SameMeaning(allowed: Allowed, section: string, lines: seq<Line>, line: Line, rest: seq<Line>, later: seq<Line>)
    requires MeanLine(lines, line)
    requires SettingsMade(allowed, SectionAfter(section, line), rest) == SettingsMade(allowed, SectionAfter(section, line), later)
    ensures SettingsMade(allowed, section, lines + rest) == SettingsMade(allowed, section, [line] + later)
  {
    SettingsMadeConcat(allowed, section, lines, rest);
    MeanLineSettings(allowed, section, lines, line);
    assert ([line] + later)[1..] == later;
  }

  lemma {:induction false} TextsRead(allowed: Allowed, section: string, texts: seq<string>, lines: seq<Line>)
    requires |texts| == |lines| && forall i :: 0 <= i < |texts| ==> IsRead(texts[i], lines[i])
    ensures SettingsMade(allowed, section, Classified(Lines(Joined(texts)))) == SettingsMade(allowed, section, lines)
    decreases |texts|
  {
    if texts == [] {
      assert Classified(Lines(Joined(texts))) == lines;
    } else {
      TextsRead(allowed, SectionAfter(section, lines[0]), texts[1..], lines[1..]);
      ReadFirst(allowed, section, texts[0], lines[0], Joined(texts[1..]), lines[1..]);
      assert [lines[0]] + lines[1..] == lines;
    }
  }

  /** Reading written chunks gives back what they mean. */
  lemma ChunksRead(allowed: Allowed, section: string, cs: seq<Chunk>)
    requires forall i :: 0 <= i < |cs| ==> IsChunk(cs[i])
    ensures SettingsMade(allowed, section, Classified(Lines(RenderedAll(cs)))) == SettingsMade(allowed, section, Meanings(cs))
  {
    var texts := seq(|cs|, i requires 0 <= i < |cs| => Rendered(cs[i]));
    forall i | 0 <= i < |cs|
      ensures IsRead(texts[i], Meanings(cs)[i])
    {
      ChunkMeans(cs[i]);
    }
    TextsRead(allowed, section, texts, Meanings(cs));
  }

  // ---------------------------------------------------------------------
  // What a written file is read as.

  predicate IsBlock(allowed: Allowed, b: Block) {
    && IsSectionName(b.section)
    && forall i :: 0 <= i < |b.entries| ==>
         IsKey(b.entries[i].0) && IsExportable(b.entries[i].1) && allowed(b.section, b.entries[i].0)
  }

  predicate AreBlocks(allowed: Allowed, bs: seq<Block>) {
    forall i :: 0 <= i < |bs| ==> IsBlock(allowed, bs[i])
  }

  predicate AreComments(comments: seq<string>) {
    forall i :: 0 <= i < |comments| ==> '\n' !in comments[i] && (comments[i] != [] ==> comments[i][0] == '#')
  }

  /** Each entry in its section, with the first line of its value. */
  function BlockSettings(b: Block): seq<Setting> {
    EntrySettings(b.section, b.entries)
  }

  function EntrySettings(section: string, entries: seq<(string, string)>): seq<Setting> {
    seq(|entries|, i requires 0 <= i < |entries| => Setting(section, entries[i].0, FirstLine(entries[i].1)))
  }

  function BlocksSettings(bs: seq<Block>): seq<Setting> {
    if bs == [] then [] else BlockSettings(bs[0]) + BlocksSettings(bs[1..])
  }

  lemma {:induction false} EntriesMean(allowed: Allowed, section: string, entries: seq<(string, string)>)
    requires forall i :: 0 <= i < |entries| ==> allowed(section, entries[i].0)
    ensures SettingsMade(allowed, section, Meanings(Entries(entries))) == EntrySettings(section, entries)
    ensures LastSection(section, Meanings(Entries(entries))) == section
    decreases |entries|
  {
    if entries != [] {
      EntriesMean(allowed, section, entries[1..]);
      FirstEntry(section, entries);
      FirstSettingMade(allowed, section, Assigning(entries[0].0, FirstLine(entries[0].1)), Meanings(Entries(entries[1..])));
    }
  }

  lemma FirstEntry(section: string, entries: seq<(string, string)>)
    requires entries != []
    ensures var first := Assigning(entries[0].0, FirstLine(entries[0].1));
            && Meanings(Entries(entries)) == [first] + Meanings(Entries(entries[1..]))
            && EntrySettings(section, entries)
               == [Setting(section, first.key, first.value)] + EntrySettings(section, entries[1..])
  {
  }

  lemma FirstSettingMade(allowed: Allowed, section: string, first: Line, rest: seq<Line>)
    ensures SettingsMade(allowed, section, [first] + rest)
         == SettingOf(allowed, section, first) + SettingsMade(allowed, SectionAfter(section, first), rest)
    ensures LastSection(section, [first] + rest) == LastSection(SectionAfter(section, first), rest)
  {
    assert ([first] + rest)[1..] == rest;
  }

  lemma BlockMeans(allowed: Allowed, section: string, b: Block)
    requires forall i :: 0 <= i < |b.entries| ==> allowed(b.section, b.entries[i].0)
    ensures SettingsMade(allowed, section, Meanings(BlockChunks(b))) == BlockSettings(b)
    ensures LastSection(section, Meanings(BlockChunks(b))) == b.section
  {
    var lines := Meanings(BlockChunks(b));
    EntriesMean(allowed, b.section, b.entries);
    assert lines[1..][1..] == Meanings(Entries(b.entries));
  }

  lemma {:induction false} BlocksMean(allowed: Allowed, section: string, bs: seq<Block>)
    requires AreBlocks(allowed, bs)
    ensures SettingsMade(allowed, section, Meanings(BlocksChunks(bs))) == BlocksSettings(bs)
    decreases |bs|
  {
    if bs != [] {
      BlockMeans(allowed, section, bs[0]);
      BlocksMean(allowed, bs[0].section, bs[1..]);
      MeaningsConcat(BlockChunks(bs[0]), BlocksChunks(bs[1..]));
      SettingsMadeConcat(allowed, section, Meanings(BlockChunks(bs[0])), Meanings(BlocksChunks(bs[1..])));
    }
  }

  lemma MeaningsConcat(a: seq<Chunk>, b: seq<Chunk>)
    ensures Meanings(a + b) == Meanings(a) + Meanings(b)
  {
  }

  lemma {:induction false} BlocksAreChunks(allowed: Allowed, bs: seq<Block>)
    requires AreBlocks(allowed, bs)
    ensures forall i :: 0 <= i < |BlocksChunks(bs)| ==> IsChunk(BlocksChunks(bs)[i])
    decreases |bs|
  {
    if bs != [] {
      BlocksAreChunks(allowed, bs[1..]);
      BlockIsChunks(allowed, bs[0]);
    }
  }

  lemma BlockIsChunks(allowed: Allowed, b: Block)
    requires IsBlock(allowed, b)
    ensures forall i :: 0 <= i < |BlockChunks(b)| ==> IsChunk(BlockChunks(b)[i])
  {
    forall i | 0 <= i < |BlockChunks(b)|
      ensures IsChunk(BlockChunks(b)[i])
    {
      if 2 <= i {
        assert BlockChunks(b)[i] == Entry(b.entries[i - 2].0, b.entries[i - 2].1);
      }
    }
  }

  /** Reading a written file gives each entry back in its section, with the first line of its value. */
  lemma WrittenFileIsRead(allowed: Allowed, comments: seq<string>, bs: seq<Block>)
    requires AreComments(comments) && AreBlocks(allowed, bs)
    ensures Parse(allowed, FileText(comments, bs)) == BlocksSettings(bs)
  {
    var notes, chunks := Notes(comments), BlocksChunks(bs);
    BlocksAreChunks(allowed, bs);
    ChunksRead(allowed, "", notes + chunks);
    MeaningsConcat(notes, chunks);
    NotesMean(allowed, comments, Meanings(chunks));
    BlocksMean(allowed, "", bs);
  }

  lemma NotesMean(allowed: Allowed, comments: seq<string>, later: seq<Line>)
    ensures SettingsMade(allowed, "", Meanings(Notes(comments)) + later) == SettingsMade(allowed, "", later)
  {
    SkippedMeanNothing(allowed, "", Meanings(Notes(comments)));
    SettingsMadeConcat(allowed, "", Meanings(Notes(comments)), later);
  }
}
