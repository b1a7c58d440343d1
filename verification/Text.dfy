/** Text as a sequence of lines. */
module Text {
  /** The index of the first `c`, or the length. */
  function IndexOf(text: string, c: char): (i: nat)
    ensures i <= |text|
    ensures i < |text| ==> text[i] == c
    ensures forall k :: 0 <= k < i ==> text[k] != c
  {
    if text == [] || text[0] == c then 0 else 1 + IndexOf(text[1..], c)
  }

  lemma IndexOfSplit(a: string, c: char, b: string)
    requires c !in a
    ensures IndexOf(a + [c] + b, c) == |a|
  {
    var text := a + [c] + b;
    assert text[|a|] == c;
    assert forall k :: 0 <= k < |a| ==> text[k] == a[k];
  }

  lemma IndexOfNone(text: string, c: char)
    requires c !in text
    ensures IndexOf(text, c) == |text|
  {
    var i := IndexOf(text, c);
    assert i == |text|;
  }

  /** A class of characters, such as the blanks of a format. */
  type CharClass = char -> bool

  /** The text without what it starts with of a class. */
  function TrimStart(drop: CharClass, text: string): (t: string)
    ensures |t| <= |text|
  {
    if text != [] && drop(text[0]) then TrimStart(drop, text[1..]) else text
  }

  /** The text without what it ends with of a class. */
  function TrimEnd(drop: CharClass, text: string): (t: string)
    ensures |t| <= |text|
  {
    if text != [] && drop(text[|text| - 1]) then TrimEnd(drop, text[..|text| - 1]) else text
  }

  lemma {:induction false} TrimStartAddsNothing(drop: CharClass, text: string, c: char)
    requires c !in text
    ensures c !in TrimStart(drop, text)
  {
    if text != [] && drop(text[0]) {
      TrimStartAddsNothing(drop, text[1..], c);
    }
  }

  lemma {:induction false} TrimEndAddsNothing(drop: CharClass, text: string, c: char)
    requires c !in text
    ensures c !in TrimEnd(drop, text)
    decreases |text|
  {
    if text != [] && drop(text[|text| - 1]) {
      TrimEndAddsNothing(drop, text[..|text| - 1], c);
    }
  }

  lemma {:induction false} TrimEndKeepsFirst(drop: CharClass, text: string)
    requires text != [] && !drop(text[0])
    ensures TrimEnd(drop, text) != [] && TrimEnd(drop, text)[0] == text[0]
    decreases |text|
  {
    if drop(text[|text| - 1]) {
      TrimEndKeepsFirst(drop, text[..|text| - 1]);
    }
  }

  predicate Each(drop: CharClass, text: string) {
    forall k :: 0 <= k < |text| ==> drop(text[k])
  }

  lemma {:induction false} TrimStartDrops(drop: CharClass, lead: string, text: string)
    requires Each(drop, lead) && (text != [] ==> !drop(text[0]))
    ensures TrimStart(drop, lead + text) == text
    decreases |lead|
  {
    if lead == [] {
      assert lead + text == text;
    } else {
      assert (lead + text)[0] == lead[0] && (lead + text)[1..] == lead[1..] + text;
      TrimStartDrops(drop, lead[1..], text);
    }
  }

  /** What trimming the start drops is of the class. */
  lemma {:induction false} TrimStartSplit(drop: CharClass, text: string) returns (lead: string)
    ensures text == lead + TrimStart(drop, text) && Each(drop, lead)
    ensures TrimStart(drop, text) != [] ==> !drop(TrimStart(drop, text)[0])
  {
    lead := [];
    if text != [] && drop(text[0]) {
      var rest := TrimStartSplit(drop, text[1..]);
      lead := [text[0]] + rest;
      assert text == lead + TrimStart(drop, text);
    }
  }

  lemma {:induction false} TrimEndSplit(drop: CharClass, text: string) returns (trail: string)
    ensures text == TrimEnd(drop, text) + trail && Each(drop, trail)
    ensures TrimEnd(drop, text) != [] ==> !drop(TrimEnd(drop, text)[|TrimEnd(drop, text)| - 1])
    decreases |text|
  {
    trail := [];
    if text != [] && drop(text[|text| - 1]) {
      var rest := TrimEndSplit(drop, text[..|text| - 1]);
      trail := rest + [text[|text| - 1]];
      assert text == TrimEnd(drop, text) + trail;
    }
  }

  lemma {:induction false} TrimEndDrops(drop: CharClass, text: string, trail: string)
    requires Each(drop, trail) && (text != [] ==> !drop(text[|text| - 1]))
    ensures TrimEnd(drop, text + trail) == text
    decreases |trail|
  {
    if trail == [] {
      assert text + trail == text;
    } else {
      assert trail[|trail| - 1] == (text + trail)[|text + trail| - 1];
      assert (text + trail)[..|text + trail| - 1] == text + trail[..|trail| - 1];
      TrimEndDrops(drop, text, trail[..|trail| - 1]);
    }
  }

  /** The text up to its first line end. */
  function FirstLine(text: string): string {
    text[..IndexOf(text, '\n')]
  }

  /** The text after its first line. */
  function AfterLine(text: string): (rest: string)
    ensures text != [] ==> |rest| < |text|
  {
    var end := IndexOf(text, '\n');
    if end < |text| then text[end + 1..] else []
  }

  /** The lines, without their ends; the last one need not be terminated. */
  function Lines(text: string): seq<string>
    decreases |text|
  {
    if text == [] then [] else [FirstLine(text)] + Lines(AfterLine(text))
  }

  lemma FirstLineOf(first: string, rest: string)
    requires '\n' !in first
    ensures Lines(first + "\n" + rest) == [first] + Lines(rest)
  {
    var text := first + "\n" + rest;
    IndexOfSplit(first, '\n', rest);
    assert text[..|first|] == first && text[|first| + 1..] == rest;
  }

  /** Text as one line with its end. */
  function Terminated(text: string): string {
    text + "\n"
  }

  predicate IsTerminated(text: string) {
    text != [] && text[|text| - 1] == '\n'
  }

  lemma FirstOfTerminated(a: string, b: string)
    requires IsTerminated(a)
    ensures FirstLine(a + b) == FirstLine(a) && AfterLine(a + b) == AfterLine(a) + b
    ensures AfterLine(a) == [] || IsTerminated(AfterLine(a))
  {
    var end := IndexOf(a, '\n');
    assert end < |a| by {
      var last := |a| - 1;
      assert a[last] == '\n';
    }
    assert a + b == a[..end] + ['\n'] + (a[end + 1..] + b);
    IndexOfSplit(a[..end], '\n', a[end + 1..] + b);
    assert (a + b)[..end] == a[..end] && (a + b)[end + 1..] == a[end + 1..] + b;
  }

  /** Terminated text splits at its end. */
  lemma {:induction false} LinesConcat(a: string, b: string)
    requires IsTerminated(a)
    ensures Lines(a + b) == Lines(a) + Lines(b)
    decreases |a|, 0
  {
    FirstOfTerminated(a, b);
    LinesOfRest(AfterLine(a), b);
    Associate(Lines(a), Lines(a + b), [FirstLine(a)], Lines(AfterLine(a)), Lines(b));
  }

  lemma {:induction false} LinesOfRest(rest: string, b: string)
    requires rest == [] || IsTerminated(rest)
    ensures Lines(rest + b) == Lines(rest) + Lines(b)
    decreases |rest|, 1
  {
    if rest == [] {
      assert rest + b == b;
    } else {
      LinesConcat(rest, b);
    }
  }

  lemma Associate<T>(a: seq<T>, ab: seq<T>, first: seq<T>, rest: seq<T>, b: seq<T>)
    requires a == first + rest && ab == first + (rest + b)
    ensures ab == a + b
  {
  }

  /** What stands before the first line end belongs to the first line. */
  lemma LinesPrefixed(a: string, b: string)
    requires '\n' !in a && b != []
    ensures Lines(b) != [] && Lines(a + b) == [a + Lines(b)[0]] + Lines(b)[1..]
  {
    FirstOfPrefixed(a, b);
  }

  lemma FirstOfPrefixed(a: string, b: string)
    requires '\n' !in a
    ensures FirstLine(a + b) == a + FirstLine(b) && AfterLine(a + b) == AfterLine(b)
  {
    PrefixedIndex(a, b, '\n');
    var i := IndexOf(b, '\n');
    assert (a + b)[..|a| + i] == a + b[..i];
    if i < |b| {
      assert (a + b)[|a| + i + 1..] == b[i + 1..];
    }
  }

  lemma {:induction false} PrefixedIndex(a: string, b: string, c: char)
    requires c !in a
    ensures IndexOf(a + b, c) == |a| + IndexOf(b, c)
  {
    if a == [] {
      assert a + b == b;
    } else {
      assert (a + b)[1..] == a[1..] + b;
      PrefixedIndex(a[1..], b, c);
    }
  }

  /** No line holds a line end. */
  lemma {:induction false} LinesAreSingle(text: string)
    ensures forall i :: 0 <= i < |Lines(text)| ==> '\n' !in Lines(text)[i]
    decreases |text|
  {
    if text != [] {
      LinesAreSingle(AfterLine(text));
      assert '\n' !in FirstLine(text);
    }
  }

  lemma SingleLine(text: string)
    requires '\n' !in text
    ensures Lines(Terminated(text)) == [text]
  {
    FirstLineOf(text, "");
    assert text + "\n" + "" == text + "\n";
    assert Lines("") == [];
  }

  /** ASCII letters and digits, by their codes. */
  predicate IsLetterOrDigit(c: char) {
    48 <= c as int <= 57 || 65 <= c as int <= 90 || 97 <= c as int <= 122
  }
}
