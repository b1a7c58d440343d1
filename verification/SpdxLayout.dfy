/**
 Licence expressions in any layout: which characters may stand between tokens,
 which make up an identifier, and that nothing else about the layout matters.
 The classes of characters are given by their codes, apart from those the scanner tests.
 */
module SpdxLayout {
  import opened Basics
  import SpdxErrors
  import opened SpdxGrammar
  import opened SpdxTokens
  import opened Text

  /** The white space of Python's `str`. */
  predicate IsWhite(c: char) {
    c as int in {
      9, 10, 11, 12, 13, 28, 29, 30, 31, 32, 133, 160, 5760,
      8192, 8193, 8194, 8195, 8196, 8197, 8198, 8199, 8200, 8201, 8202,
      8232, 8233, 8239, 8287, 12288
    }
  }

  lemma ClassesAgree(c: char)
    ensures IsLetterOrDigit(c) <==> IsAlphanumeric(c)
    ensures Continues(c) <==> IsIdentifierChar(c)
    ensures IsWhite(c) <==> IsSpace(c)
  {
  }

  // ---------------------------------------------------------------------
  // Tokens, in these classes.

  /** The token goes on after the keyword with something that ends a word. */
  predicate Hides(t: Token, keyword: Token) {
    keyword <= t && |keyword| < |t| && t[|keyword|] in {'.', '+', '-'}
  }

  /** An identifier that is read as one. */
  predicate IsPlain(t: Token) {
    && IsShapedIdentifier(t) && t !in {"AND", "OR", "WITH"}
    && !Hides(t, "AND") && !Hides(t, "OR") && !Hides(t, "WITH")
  }

  predicate IsBracket(t: Token) {
    t == "(" || t == ")"
  }

  predicate IsWord(t: Token) {
    t in {"AND", "OR", "WITH"} || IsShapedIdentifier(t)
  }

  /** Tokens that are read as themselves. */
  predicate IsRead(t: Token) {
    t in {"AND", "OR", "WITH", "(", ")"} || IsPlain(t)
  }

  lemma HidesAgree(t: Token, keyword: Token)
    requires IsShapedIdentifier(t)
    ensures HidesKeyword(t, keyword) <==> t == keyword || Hides(t, keyword)
  {
    if keyword <= t && |keyword| < |t| {
      assert IsIdentifierChar(t[|keyword|]);
    }
  }

  lemma ReadIsClean(t: Token)
    ensures IsPlain(t) <==> IsCleanIdentifier(t)
    ensures IsRead(t) <==> IsCleanToken(t)
    ensures IsWord(t) || IsBracket(t) <==> IsShapedToken(t)
  {
    if IsShapedIdentifier(t) {
      HidesAgree(t, "AND");
      HidesAgree(t, "OR");
      HidesAgree(t, "WITH");
    }
  }

  // ---------------------------------------------------------------------
  // Where a token ends.

  /** What may follow a word: white space or a bracket. */
  predicate Parts(c: char) {
    IsWhite(c) || c == '(' || c == ')'
  }

  lemma PartsIsNoName(c: char)
    requires Parts(c)
    ensures !IsIdentifierChar(c) && !IsAlphanumeric(c)
  {
    ClassesAgree(c);
  }

  lemma NoKeywordHere(text: string, i: nat, id: Token, keyword: Token)
    requires keyword in {"AND", "OR", "WITH"}
    requires IsCleanIdentifier(id) && i + |id| <= |text| && text[i..i + |id|] == id
    requires i + |id| < |text| ==> !IsAlphanumeric(text[i + |id|])
    ensures !KeywordAt(text, i, keyword)
  {
    Written(text, i, id);
    if i + |keyword| <= |text| && text[i..i + |keyword|] == keyword {
      Written(text, i, keyword);
      assert |keyword| <= |id| ==> keyword <= id;
    }
  }

  /** A plain identifier goes on exactly as far as its characters do: any other ends it. */
  lemma IdentifierEndsHere(text: string, i: nat, id: Token)
    requires IsPlain(id) && i + |id| <= |text| && text[i..i + |id|] == id
    requires i + |id| < |text| ==> !Continues(text[i + |id|])
    ensures TokenEnd(text, i) == Some(i + |id|)
  {
    ReadIsClean(id);
    Written(text, i, id);
    if i + |id| < |text| {
      ClassesAgree(text[i + |id|]);
    }
    NoKeywordHere(text, i, id, "AND");
    NoKeywordHere(text, i, id, "OR");
    NoKeywordHere(text, i, id, "WITH");
    IdentifierEnds(text, i, |id|);
  }

  lemma OtherKeyword(text: string, i: nat, t: Token, keyword: Token)
    requires t in {"AND", "OR", "WITH"} && keyword in {"AND", "OR", "WITH"} && t != keyword
    requires i + |t| <= |text| && text[i..i + |t|] == t
    ensures !KeywordAt(text, i, keyword)
  {
    Written(text, i, t);
    assert text[i] == t[0];
    if KeywordAt(text, i, keyword) {
      Written(text, i, keyword);
    }
  }

  /** A keyword before white space or a bracket, whether or not that counts as part of a word. */
  lemma KeywordEndsHere(text: string, i: nat, t: Token)
    requires t in {"AND", "OR", "WITH"} && i + |t| <= |text| && text[i..i + |t|] == t
    requires i + |t| < |text| ==> Parts(text[i + |t|])
    ensures TokenEnd(text, i) == Some(i + |t|)
  {
    Written(text, i, t);
    if i + |t| < |text| {
      PartsIsNoName(text[i + |t|]);
    }
    if KeywordAt(text, i, t) {
      KeywordIsTaken(text, i, t);
    } else {
      forall keyword | keyword in {"AND", "OR", "WITH"} && keyword != t
        ensures !KeywordAt(text, i, keyword)
      {
        OtherKeyword(text, i, t, keyword);
      }
      IdentifierEnds(text, i, |t|);
    }
  }

  lemma TokenEndsHere(text: string, i: nat, t: Token)
    requires IsRead(t) && i + |t| <= |text| && text[i..i + |t|] == t
    requires !IsBracket(t) && i + |t| < |text| ==> Parts(text[i + |t|])
    ensures TokenEnd(text, i) == Some(i + |t|)
  {
    if IsBracket(t) {
      BracketIsTaken(text, i, t);
    } else if t in {"AND", "OR", "WITH"} {
      KeywordEndsHere(text, i, t);
    } else {
      if i + |t| < |text| {
        PartsIsNoName(text[i + |t|]);
        ClassesAgree(text[i + |t|]);
      }
      IdentifierEndsHere(text, i, t);
    }
  }

  // ---------------------------------------------------------------------
  // Layouts.

  predicate AllWhite(gap: string) {
    forall k :: 0 <= k < |gap| ==> IsWhite(gap[k])
  }

  /** Gaps between tokens hold white space only, and at least some of it between two words. */
  predicate Separates(ts: seq<Token>, gaps: seq<string>) {
    && |ts| == |gaps| + 1
    && forall i :: 0 <= i < |gaps| ==> AllWhite(gaps[i]) && (gaps[i] != [] || IsBracket(ts[i]) || IsBracket(ts[i + 1]))
  }

  function LaidOut(ts: seq<Token>, gaps: seq<string>): string
    requires |ts| == |gaps| + 1
  {
    if gaps == [] then ts[0] else ts[0] + gaps[0] + LaidOut(ts[1..], gaps[1..])
  }

  /** The tokens stand at `i` with these gaps, up to the end of the text. */
  predicate LaidAt(text: string, i: nat, ts: seq<Token>, gaps: seq<string>)
    requires |ts| == |gaps| + 1
    decreases |ts|
  {
    var end := i + |ts[0]|;
    && end <= |text| && text[i..end] == ts[0]
    && if gaps == [] then end == |text|
       else
         var start := end + |gaps[0]|;
         start <= |text| && text[end..start] == gaps[0] && LaidAt(text, start, ts[1..], gaps[1..])
  }

  lemma {:induction false} LaidOutIsLaid(text: string, i: nat, ts: seq<Token>, gaps: seq<string>)
    requires |ts| == |gaps| + 1 && i <= |text| && text[i..] == LaidOut(ts, gaps)
    ensures LaidAt(text, i, ts, gaps)
    decreases |ts|
  {
    var tail, n := text[i..], |ts[0]|;
    if gaps == [] {
      assert tail == ts[0];
    } else {
      var m := n + |gaps[0]|;
      assert tail[..n] == ts[0] && tail[n..m] == gaps[0] && tail[m..] == LaidOut(ts[1..], gaps[1..]);
      assert text[i + n..i + m] == tail[n..m] && text[i + m..] == tail[m..];
      LaidOutIsLaid(text, i + m, ts[1..], gaps[1..]);
    }
  }

  lemma SeparatesRest(ts: seq<Token>, gaps: seq<string>)
    requires Separates(ts, gaps) && gaps != []
    ensures Separates(ts[1..], gaps[1..])
  {
    forall i | 0 <= i < |gaps[1..]|
      ensures AllWhite(gaps[1..][i]) && (gaps[1..][i] != [] || IsBracket(ts[1..][i]) || IsBracket(ts[1..][i + 1]))
    {
      assert gaps[1..][i] == gaps[i + 1] && ts[1..][i] == ts[i + 1];
    }
  }

  /** The first character of what is laid out is that of its first token. */
  lemma LaidStarts(text: string, i: nat, ts: seq<Token>, gaps: seq<string>)
    requires |ts| == |gaps| + 1 && LaidAt(text, i, ts, gaps) && IsShapedToken(ts[0])
    ensures i < |text| && text[i] == ts[0][0] && !IsSpace(text[i])
  {
    TokenShape(ts[0]);
    Written(text, i, ts[0]);
  }

  /** What follows a word in a layout. */
  lemma NextParts(text: string, i: nat, ts: seq<Token>, gaps: seq<string>)
    requires Separates(ts, gaps) && LaidAt(text, i, ts, gaps) && AllShaped(ts) && !IsBracket(ts[0])
    ensures i + |ts[0]| < |text| ==> Parts(text[i + |ts[0]|])
  {
    var end := i + |ts[0]|;
    if gaps != [] {
      if gaps[0] == [] {
        assert IsBracket(ts[1]);
        LaidStarts(text, end, ts[1..], gaps[1..]);
      } else {
        assert text[end] == text[end..end + |gaps[0]|][0] == gaps[0][0];
      }
    }
  }

  lemma {:induction false} SkipsWhite(text: string, i: nat, gap: string)
    requires i + |gap| < |text| && text[i..i + |gap|] == gap && AllWhite(gap) && !IsSpace(text[i + |gap|])
    ensures SkipSpaces(text, i) == i + |gap|
    decreases |gap|
  {
    if gap != [] {
      assert text[i] == text[i..i + |gap|][0] == gap[0];
      ClassesAgree(gap[0]);
      assert text[i + 1..i + 1 + |gap[1..]|] == text[i..i + |gap|][1..];
      SkipsWhite(text, i + 1, gap[1..]);
    }
  }

  lemma SkipGap(text: string, i: nat, gap: string, ts: seq<Token>)
    requires i + |gap| < |text| && text[i..i + |gap|] == gap && AllWhite(gap) && !IsSpace(text[i + |gap|])
    requires ReadsAs(text, i + |gap|, ts)
    ensures ReadsAs(text, i, ts)
  {
    SkipsWhite(text, i, gap);
    assert SkipSpaces(text, i + |gap|) == i + |gap|;
  }

  /** Scanning tokens in any layout. */
  lemma {:induction false} ScanLaid(text: string, i: nat, ts: seq<Token>, gaps: seq<string>)
    requires Separates(ts, gaps) && LaidAt(text, i, ts, gaps) && AllShaped(ts)
    ensures i <= |text| && ReadsAs(text, i, ts)
    decreases |ts|, 1
  {
    FirstAndRest(ts);
    if IsCleanToken(ts[0]) {
      if !IsBracket(ts[0]) {
        NextParts(text, i, ts, gaps);
      }
      ReadIsClean(ts[0]);
      TokenEndsHere(text, i, ts[0]);
      LaidStarts(text, i, ts, gaps);
      ScanLaidRest(text, i, ts, gaps);
      TakeToken(text, i, i + |ts[0]|, ts);
    } else {
      HiddenToken(text, i, ts[0], ts);
    }
  }

  lemma {:induction false} ScanLaidRest(text: string, i: nat, ts: seq<Token>, gaps: seq<string>)
    requires Separates(ts, gaps) && LaidAt(text, i, ts, gaps) && AllShaped(ts[1..])
    ensures i + |ts[0]| <= |text| && ReadsAs(text, i + |ts[0]|, ts[1..])
    decreases |ts|, 0
  {
    var end, more := i + |ts[0]|, ts[1..];
    if gaps == [] {
      NoMoreTokens(text, more);
    } else {
      SeparatesRest(ts, gaps);
      ScanLaidGap(text, end, gaps[0], end + |gaps[0]|, more, gaps[1..]);
    }
  }

  lemma {:induction false} ScanLaidGap(text: string, end: nat, gap: string, start: nat, more: seq<Token>, gaps: seq<string>)
    requires start == end + |gap| <= |text| && text[end..start] == gap && AllWhite(gap)
    requires Separates(more, gaps) && LaidAt(text, start, more, gaps) && AllShaped(more)
    ensures ReadsAs(text, end, more)
    decreases |more|, 2
  {
    ScanLaid(text, start, more, gaps);
    ReadsOverGap(text, end, gap, start, more, gaps);
  }

  lemma ReadsOverGap(text: string, end: nat, gap: string, start: nat, more: seq<Token>, gaps: seq<string>)
    requires start == end + |gap| <= |text| && text[end..start] == gap && AllWhite(gap)
    requires |more| == |gaps| + 1 && LaidAt(text, start, more, gaps) && AllShaped(more) && ReadsAs(text, start, more)
    ensures ReadsAs(text, end, more)
  {
    LaidStarts(text, start, more, gaps);
    SkipGap(text, end, gap, more);
  }

  // ---------------------------------------------------------------------
  // Whole texts.

  lemma StripLaid(lead: string, core: string, trail: string)
    requires AllWhite(lead) && AllWhite(trail)
    requires core != [] && !IsSpace(core[0]) && !IsSpace(core[|core| - 1])
    ensures Strip(lead + core + trail) == core
  {
    var text := lead + core + trail;
    assert text[0..0 + |lead|] == lead && text[|lead|] == core[0];
    SkipsWhite(text, 0, lead);
    assert text[|lead|..] == core + trail;
    forall k | 0 <= k < |trail|
      ensures IsSpace(trail[k])
    {
      ClassesAgree(trail[k]);
    }
    TrimEndDrops(IsSpace, core, trail);
  }

  lemma {:induction false} LaidOutEnds(ts: seq<Token>, gaps: seq<string>)
    requires |ts| == |gaps| + 1 && AllShaped(ts)
    ensures var core := LaidOut(ts, gaps);
            core != [] && !IsSpace(core[0]) && !IsSpace(core[|core| - 1])
    decreases |ts|
  {
    TokenShape(ts[0]);
    if gaps != [] {
      FirstAndRest(ts);
      LaidOutEnds(ts[1..], gaps[1..]);
    }
  }

  /** Tokens in any layout, white space around them included, are read as those tokens or not at all. */
  lemma AnyLayoutIsRead(lead: string, ts: seq<Token>, gaps: seq<string>, trail: string)
    requires AllWhite(lead) && AllWhite(trail) && Separates(ts, gaps)
    requires forall t :: t in ts ==> IsWord(t) || IsBracket(t)
    ensures var tokens := Tokenize(Strip(lead + LaidOut(ts, gaps) + trail));
            if forall t :: t in ts ==> IsRead(t) then tokens == Ok(ts) else tokens.Err?
  {
    forall t | t in ts
      ensures IsShapedToken(t) && (IsRead(t) <==> IsCleanToken(t))
    {
      ReadIsClean(t);
    }
    var core := LaidOut(ts, gaps);
    LaidOutEnds(ts, gaps);
    StripLaid(lead, core, trail);
    assert core[0..] == core;
    LaidOutIsLaid(core, 0, ts, gaps);
    ScanLaid(core, 0, ts, gaps);
  }

  /** So every expression is understood in every layout, exactly when its tokens are read as themselves. */
  lemma EveryLayoutParses(lead: string, e: OrExpr, gaps: seq<string>, trail: string)
    requires OrFormed(e) && AllWhite(lead) && AllWhite(trail) && Separates(OrYield(e), gaps)
    requires forall t :: t in OrYield(e) ==> IsWord(t) || IsBracket(t)
    ensures var text := lead + LaidOut(OrYield(e), gaps) + trail;
            if forall t :: t in OrYield(e) ==> IsRead(t)
            then ParseExpression(text) == Ok((Distinct(OrLicenses(e)), Distinct(OrExceptions(e))))
            else ParseExpression(text).Err?
  {
    AnyLayoutIsRead(lead, OrYield(e), gaps, trail);
    ParserIsTheGrammar(OrYield(e), e);
  }

  /** One identifier as an expression. */
  function Single(id: Token): OrExpr {
    OneAnd(OneWith(Plain(License(id))))
  }

  lemma SingleYield(id: Token)
    ensures OrYield(Single(id)) == [id]
    ensures IsIdentifier(id) ==> OrFormed(Single(id))
    ensures Distinct(OrLicenses(Single(id))) == [id] && Distinct(OrExceptions(Single(id))) == []
  {
    var w := Plain(License(id));
    assert WithYield(w) == PrimaryYield(w.primary) == [id];
    assert WithLicenses(w) == PrimaryLicenses(w.primary) == [id];
    assert WithExceptions(w) == PrimaryExceptions(w.primary) == [];
    assert AndYield(OneWith(w)) == [id] && AndLicenses(OneWith(w)) == [id] && AndExceptions(OneWith(w)) == [];
    assert IsIdentifier(id) ==> WithFormed(w) && AndFormed(OneWith(w));
    assert [id][..0] == [];
    assert Distinct([id]) == Distinct([id][..0]) + [id];
  }

  lemma IdentifierParses(lead: string, id: string, trail: string)
    requires IsPlain(id) && AllWhite(lead) && AllWhite(trail)
    ensures ParseExpression(lead + id + trail) == Ok(([id], []))
  {
    SingleYield(id);
    ReadIsClean(id);
    assert LaidOut([id], []) == id;
    EveryLayoutParses(lead, Single(id), [], trail);
  }

  // ---------------------------------------------------------------------
  // And nothing else is read as one identifier.

  /** Each token is as long as the text at most, and if it is, it ends where the text does. */
  lemma {:induction false} TokensAreShort(text: string, i: nat, ts: seq<Token>, t: Token)
    requires i <= |text| && TokensFrom(text, i) == Ok(ts) && t in ts
    ensures |t| <= |text| - i
    ensures |t| == |text| - i ==> TokenEnd(text, i) == Some(|text|) && t == text[i..]
    decreases |text| - i
  {
    var start := SkipSpaces(text, i);
    var end := TokenEnd(text, start).value;
    if t != ts[0] {
      assert ts == [ts[0]] + ts[1..];
      TokensAreShort(text, end, ts[1..], t);
    }
  }

  lemma {:induction false} OrLicensesYield(e: OrExpr)
    ensures forall id :: id in OrLicenses(e) ==> id in OrYield(e)
    decreases e, 0
  {
    match e
    case OneAnd(a) => AndLicensesYield(a);
    case OrMore(a, more) =>
      AndLicensesYield(a);
      OrLicensesYield(more);
  }

  lemma {:induction false} AndLicensesYield(e: AndExpr)
    ensures forall id :: id in AndLicenses(e) ==> id in AndYield(e)
    decreases e, 0
  {
    match e
    case OneWith(w) => WithLicensesYield(w);
    case AndMore(w, more) =>
      WithLicensesYield(w);
      AndLicensesYield(more);
  }

  lemma {:induction false} WithLicensesYield(e: WithExpr)
    ensures forall id :: id in WithLicenses(e) ==> id in WithYield(e)
    decreases e, 0
  {
    match e
    case With(license, exception) =>
      assert WithYield(e)[0] == license;
    case Plain(License(id)) =>
      assert WithYield(e) == PrimaryYield(e.primary) == [id];
    case Plain(Group(inner)) =>
      OrLicensesYield(inner);
      assert WithYield(e) == PrimaryYield(e.primary) == ["("] + OrYield(inner) + [")"];
      assert WithLicenses(e) == PrimaryLicenses(e.primary) == OrLicenses(inner);
  }

  /** The identifiers of an accepted text are tokens of it. */
  lemma LicensesAreTokens(text: string, licenses: seq<Token>, exceptions: seq<Token>, id: Token)
    requires ParseExpression(text) == Ok((licenses, exceptions)) && id in licenses
    ensures Tokenize(Strip(text)).Ok? && id in Tokenize(Strip(text)).value && IsIdentifier(id)
  {
    var ts := Tokenize(Strip(text)).value;
    var tree := Parse(ts).value;
    ParserIsTheGrammar(ts, tree);
    OrLicensesYield(tree);
    OrLicensesAreIdentifiers(tree);
    DistinctIsFirstOccurrences(OrLicenses(tree));
  }

  lemma {:induction false} OrLicensesAreIdentifiers(e: OrExpr)
    requires OrFormed(e)
    ensures forall id :: id in OrLicenses(e) ==> IsIdentifier(id)
    decreases e, 0
  {
    match e
    case OneAnd(a) => AndLicensesAreIdentifiers(a);
    case OrMore(a, more) =>
      AndLicensesAreIdentifiers(a);
      OrLicensesAreIdentifiers(more);
  }

  lemma {:induction false} AndLicensesAreIdentifiers(e: AndExpr)
    requires AndFormed(e)
    ensures forall id :: id in AndLicenses(e) ==> IsIdentifier(id)
    decreases e, 0
  {
    match e
    case OneWith(w) => WithLicensesAreIdentifiers(w);
    case AndMore(w, more) =>
      WithLicensesAreIdentifiers(w);
      AndLicensesAreIdentifiers(more);
  }

  lemma {:induction false} WithLicensesAreIdentifiers(e: WithExpr)
    requires WithFormed(e)
    ensures forall id :: id in WithLicenses(e) ==> IsIdentifier(id)
    decreases e, 0
  {
    if e.Plain? && e.primary.Group? {
      OrLicensesAreIdentifiers(e.primary.inner);
    }
  }

  /** A token that takes a whole text, and is no keyword or bracket, is a plain identifier. */
  lemma WholeTokenIsPlain(text: string)
    requires TokenEnd(text, 0) == Some(|text|) && IsIdentifier(text)
    ensures IsPlain(text)
  {
    assert text == [text[0]] + text[1..];
    NotWhole(text, "AND");
    NotWhole(text, "OR");
    NotWhole(text, "WITH");
    ReadIsClean(text);
  }

  lemma NotWhole(text: string, keyword: Token)
    requires keyword in {"AND", "OR", "WITH"} && IsIdentifier(text) && TokenEnd(text, 0) == Some(|text|)
    ensures !HidesKeyword(text, keyword) && !KeywordAt(text, 0, keyword)
  {
    assert KeywordAt(text, 0, keyword) <==> HidesKeyword(text, keyword) by {
      assert keyword <= text ==> text[0..0 + |keyword|] == keyword;
    }
    assert text[0..|text|] == text;
    if KeywordAt(text, 0, keyword) {
      KeywordIsTaken(text, 0, keyword);
    }
  }

  /** A text is read as the one identifier that it is exactly when it is a plain one. */
  lemma OneIdentifierExactly(text: string)
    ensures ParseExpression(text) == Ok(([text], [])) <==> IsPlain(text)
  {
    if IsPlain(text) {
      IdentifierParses([], text, []);
      assert [] + text + [] == text;
    } else if ParseExpression(text) == Ok(([text], [])) {
      var stripped := Strip(text);
      LicensesAreTokens(text, [text], [], text);
      TokensAreShort(stripped, 0, Tokenize(stripped).value, text);
      StripIsShorter(text);
      WholeTokenIsPlain(text);
    }
  }

  lemma StripIsShorter(text: string)
    ensures |Strip(text)| <= |text|
    ensures |Strip(text)| == |text| ==> Strip(text) == text
  {
    var start := SkipSpaces(text, 0);
    TrimEndWhole(text[start..]);
    assert start == 0 ==> text[start..] == text;
  }

  lemma TrimEndWhole(text: string)
    ensures |TrimEnd(IsSpace, text)| == |text| ==> TrimEnd(IsSpace, text) == text
  {
  }

  /** Before a plain identifier, what is neither white space nor a bracket is never dropped. */
  lemma OnlyWhiteIsDropped(c: char, id: string)
    requires IsPlain(id) && c != '(' && c != ')'
    ensures ParseExpression([c] + id) == Ok(([id], [])) <==> IsWhite(c)
  {
    if IsWhite(c) {
      IdentifierParses([c], id, []);
      assert [c] + id + [] == [c] + id;
    } else if ParseExpression([c] + id) == Ok(([id], [])) {
      var text := [c] + id;
      StripsToItself(c, id);
      LicensesAreTokens(text, [id], [], id);
      if IsAlphanumeric(c) {
        FirstTokenIsLonger(c, id);
        var end := TokenEnd(text, 0).value;
        var ts := Tokenize(text).value;
        assert ts[0] == text[0..end] && TokensFrom(text, end) == Ok(ts[1..]);
        assert ts == [ts[0]] + ts[1..];
        TokensAreShort(text, end, ts[1..], id);
        assert false;
      } else {
        NothingStarts(text);
        assert false;
      }
    }
  }

  lemma StripsToItself(c: char, id: string)
    requires IsPlain(id) && !IsWhite(c)
    ensures Strip([c] + id) == [c] + id && SkipSpaces([c] + id, 0) == 0
  {
    ClassesAgree(c);
    ReadIsClean(id);
    TokenShape(id);
    StripIsIdentity([c] + id);
  }

  lemma NothingStarts(text: string)
    requires text != [] && SkipSpaces(text, 0) == 0 && text[0] != '(' && text[0] != ')' && !IsAlphanumeric(text[0])
    ensures Tokenize(text).Err?
  {
    StartOfKeyword(text, 0, "AND");
    StartOfKeyword(text, 0, "OR");
    StartOfKeyword(text, 0, "WITH");
  }

  lemma FirstTokenIsLonger(c: char, id: string)
    requires IsPlain(id) && IsAlphanumeric(c)
    ensures var text := [c] + id;
            TokenEnd(text, 0).Some? && 2 <= TokenEnd(text, 0).value && text[0..TokenEnd(text, 0).value] != id
  {
    var text := [c] + id;
    ReadIsClean(id);
    assert forall k :: 0 <= k < 0 + |text| ==> IsIdentifierChar(text[k]);
    IdentifierEnds(text, 0, |text|);
  }

  // ---------------------------------------------------------------------
  // What is not read.

  /** Nothing but white space is an empty expression, and nothing else is. */
  lemma EmptyIsWhite(text: string)
    ensures ParseExpression(text) == Err(EmptyExpression) <==> AllWhite(text)
  {
    var start := SkipSpaces(text, 0);
    if AllWhite(text) {
      if start < |text| {
        ClassesAgree(text[start]);
      }
      assert Strip(text) == [];
    } else {
      if start == |text| {
        forall k | 0 <= k < |text|
          ensures IsWhite(text[k])
        {
          ClassesAgree(text[k]);
        }
        assert false;
      }
      TrimEndKeepsFirst(text[start..]);
      ScanErrors(Strip(text), 0);
      ParseErrors(text);
    }
  }

  lemma {:induction false} TrimEndKeepsFirst(text: string)
    requires text != [] && !IsSpace(text[0])
    ensures TrimEnd(IsSpace, text) != []
    decreases |text|
  {
    if IsSpace(text[|text| - 1]) {
      TrimEndKeepsFirst(text[..|text| - 1]);
    }
  }

  lemma {:induction false} ScanErrors(text: string, i: nat)
    requires i <= |text|
    ensures TokensFrom(text, i).Err? ==> TokensFrom(text, i).error.UnexpectedCharacter?
    decreases |text| - i
  {
    if i < |text| {
      var end := TokenEnd(text, SkipSpaces(text, i));
      if end.Some? {
        ScanErrors(text, end.value);
      }
    }
  }

  /** The parser itself never calls an expression empty. */
  lemma ParseErrors(text: string)
    ensures ParseExpression(text) == Err(EmptyExpression) ==> Tokenize(Strip(text)) == Err(EmptyExpression)
  {
    var tokens := Tokenize(Strip(text));
    if tokens.Ok? {
      SpdxErrors.ParseErrorIsFirst(tokens.value);
      SpdxErrors.NeverEmpty(tokens.value, SpdxErrors.Nothing, 0);
    }
  }

  /** A token that ends inside a cut is the same token there. */
  lemma CutToken(text: string, start: nat, end: nat, cut: nat)
    requires start < end <= cut <= |text| && TokenEnd(text, start) == Some(end)
    ensures TokenEnd(text[..cut], start) == Some(end)
  {
    CutKeyword(text, start, end, cut, "AND");
    CutKeyword(text, start, end, cut, "OR");
    CutKeyword(text, start, end, cut, "WITH");
    if SkipIdentifier(text, start) == end {
      IdentifierEnds(text[..cut], start, end - start);
    }
  }

  lemma KeywordInCut(text: string, start: nat, cut: nat, keyword: Token)
    requires start + |keyword| <= cut <= |text|
    ensures text[..cut][start..start + |keyword|] == text[start..start + |keyword|]
    ensures KeywordAt(text, start, keyword) ==> KeywordAt(text[..cut], start, keyword)
    ensures start + |keyword| < cut && KeywordAt(text[..cut], start, keyword) ==> KeywordAt(text, start, keyword)
  {
    var shorter, end := text[..cut], start + |keyword|;
    assert shorter[start..end] == text[start..end];
    if end < cut {
      assert shorter[end] == text[end];
    }
  }

  /** A keyword seen only because of the cut is the whole token anyway. */
  lemma CutKeyword(text: string, start: nat, end: nat, cut: nat, keyword: Token)
    requires start < end <= cut <= |text| && TokenEnd(text, start) == Some(end) && keyword in {"AND", "OR", "WITH"}
    ensures KeywordAt(text, start, keyword) && start + |keyword| <= cut ==> KeywordAt(text[..cut], start, keyword)
    ensures KeywordAt(text[..cut], start, keyword) && !KeywordAt(text, start, keyword) ==> end == cut == start + |keyword|
  {
    if start + |keyword| <= cut {
      KeywordInCut(text, start, cut, keyword);
      if KeywordAt(text[..cut], start, keyword) && !KeywordAt(text, start, keyword) {
        WordGoesOn(text, start, end, keyword);
      }
    }
  }

  /** A keyword's letters that a word goes on after are taken whole, as the beginning of an identifier. */
  lemma WordGoesOn(text: string, start: nat, end: nat, keyword: Token)
    requires keyword in {"AND", "OR", "WITH"} && start + |keyword| <= |text| && text[start..start + |keyword|] == keyword
    requires !KeywordAt(text, start, keyword) && TokenEnd(text, start) == Some(end)
    ensures start + |keyword| <= end
  {
    Written(text, start, keyword);
    forall other | other in {"AND", "OR", "WITH"} && other != keyword
      ensures !KeywordAt(text, start, other)
    {
      OtherKeyword(text, start, keyword, other);
    }
    assert end == SkipIdentifier(text, start);
    assert forall k :: start <= k < start + |keyword| ==> IsIdentifierChar(text[k]);
  }

  /**
   The column of an unexpected character is one past the tokens read before it:
   the text up to there is read, and behind it no token starts.
   */
  lemma ColumnIsPastTokens(text: string, column: nat)
    requires TokensFrom(text, 0) == Err(UnexpectedCharacter(column))
    ensures 0 < column <= |text| && TokensFrom(text[..column - 1], 0).Ok?
    ensures TokenEnd(text, SkipSpaces(text, column - 1)) == None
  {
    NothingBehindColumn(text, 0, column);
    ReadUpToColumn(text, text[..column - 1], 0, column);
  }

  lemma {:induction false} NothingBehindColumn(text: string, i: nat, column: nat)
    requires i <= |text| && TokensFrom(text, i) == Err(UnexpectedCharacter(column))
    ensures i < column <= |text| && TokenEnd(text, SkipSpaces(text, column - 1)) == None
    decreases |text| - i
  {
    var end := ErrorComesFrom(text, i, column);
    if end.Some? {
      NothingBehindColumn(text, end.value, column);
    }
  }

  lemma {:induction false} ReadUpToColumn(text: string, read: string, i: nat, column: nat)
    requires i < column <= |text| && read == text[..column - 1]
    requires TokensFrom(text, i) == Err(UnexpectedCharacter(column))
    ensures TokensFrom(read, i).Ok?
    decreases |text| - i
  {
    var end := ErrorComesFrom(text, i, column);
    if end.None? {
      NoTokensLeft(read, i);
    } else {
      NothingBehindColumn(text, end.value, column);
      ReadUpToColumn(text, read, end.value, column);
      CutFirst(text, read, i, end.value, column - 1);
    }
  }

  /** The error is here if no token starts here, and otherwise that of the scan behind the token. */
  lemma ErrorComesFrom(text: string, i: nat, column: nat) returns (end: Option<nat>)
    requires i <= |text| && TokensFrom(text, i) == Err(UnexpectedCharacter(column))
    ensures i < |text| && end == TokenEnd(text, SkipSpaces(text, i))
    ensures match end
            case None => column == i + 1
            case Some(e) => TokensFrom(text, e) == Err(UnexpectedCharacter(column))
  {
    end := TokenEnd(text, SkipSpaces(text, i));
  }

  lemma NoTokensLeft(text: string, i: nat)
    requires i == |text|
    ensures TokensFrom(text, i) == Ok([])
  {
  }

  /** The first token is read from the cut as it is from the text. */
  lemma CutFirst(text: string, read: string, i: nat, end: nat, cut: nat)
    requires i < end <= cut <= |text| && read == text[..cut] && TokenEnd(text, SkipSpaces(text, i)) == Some(end)
    requires TokensFrom(read, end).Ok?
    ensures TokensFrom(read, i).Ok?
  {
    var start := SkipSpaces(text, i);
    CutToken(text, start, end, cut);
    CutSpaces(text, i, start, cut);
  }

  lemma {:induction false} CutSpaces(text: string, i: nat, start: nat, cut: nat)
    requires i <= start < cut <= |text| && SkipSpaces(text, i) == start
    ensures SkipSpaces(text[..cut], i) == start
    decreases start - i
  {
    if i < start {
      CutSpaces(text, i + 1, start, cut);
    }
  }
}
