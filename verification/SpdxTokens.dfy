/** Tokens of a licence expression, and expressions printed as text. */
module SpdxTokens {
  import opened Basics
  import opened SpdxGrammar
  import opened Text

  /** White space as the pattern `\s` and `str.strip` have it. */
  predicate IsSpace(c: char) {
    var u := c as int;
    || 0x09 <= u <= 0x0d || 0x1c <= u <= 0x20 || u == 0x85 || u == 0xa0 || u == 0x1680
    || 0x2000 <= u <= 0x200a || u == 0x2028 || u == 0x2029 || u == 0x202f || u == 0x205f || u == 0x3000
  }

  predicate IsAlphanumeric(c: char) {
    'A' <= c <= 'Z' || 'a' <= c <= 'z' || '0' <= c <= '9'
  }

  predicate IsIdentifierChar(c: char) {
    IsAlphanumeric(c) || c == '.' || c == '+' || c == '-'
  }

  /**
   A character that the pattern `\b` counts as part of a word.  Only `.`, `+`
   and `-` matter: before any other character that ends a keyword, keyword and
   identifier are the same text.
   */
  predicate IsWordChar(c: char) {
    IsAlphanumeric(c) || c == '_' || c as int >= 128
  }

  function SkipSpaces(text: string, i: nat): (j: nat)
    requires i <= |text|
    ensures i <= j <= |text|
    ensures forall k :: i <= k < j ==> IsSpace(text[k])
    ensures j < |text| ==> !IsSpace(text[j])
    decreases |text| - i
  {
    if i < |text| && IsSpace(text[i]) then SkipSpaces(text, i + 1) else i
  }

  function SkipIdentifier(text: string, i: nat): (j: nat)
    requires i <= |text|
    ensures i <= j <= |text|
    ensures forall k :: i <= k < j ==> IsIdentifierChar(text[k])
    ensures j < |text| ==> !IsIdentifierChar(text[j])
    decreases |text| - i
  {
    if i < |text| && IsIdentifierChar(text[i]) then SkipIdentifier(text, i + 1) else i
  }

  /** The keyword stands at `i` and a word ends after it. */
  predicate KeywordAt(text: string, i: nat, keyword: string)
    requires i <= |text|
  {
    && i + |keyword| <= |text| && text[i..i + |keyword|] == keyword
    && (i + |keyword| == |text| || !IsWordChar(text[i + |keyword|]))
  }

  /** The end of the token that starts at `i`, or nothing. */
  function TokenEnd(text: string, i: nat): (end: Option<nat>)
    requires i <= |text|
    ensures end.Some? ==> i < end.value <= |text|
  {
    if i == |text| then None
    else if text[i] == '(' || text[i] == ')' then Some(i + 1)
    else if KeywordAt(text, i, "AND") then Some(i + 3)
    else if KeywordAt(text, i, "OR") then Some(i + 2)
    else if KeywordAt(text, i, "WITH") then Some(i + 4)
    else if IsAlphanumeric(text[i]) then Some(SkipIdentifier(text, i))
    else None
  }

  /** The tokens from `i` on; a failure is at the place the scan had reached. */
  function TokensFrom(text: string, i: nat): Result<seq<Token>, ParseError>
    requires i <= |text|
    decreases |text| - i
  {
    if i == |text| then Ok([])
    else
      var start := SkipSpaces(text, i);
      match TokenEnd(text, start)
      case None => Err(UnexpectedCharacter(i + 1))
      case Some(end) =>
        match TokensFrom(text, end)
        case Err(e) => Err(e)
        case Ok(ts) => Ok([text[start..end]] + ts)
  }

  function Strip(text: string): string {
    TrimEnd(IsSpace, text[SkipSpaces(text, 0)..])
  }

  function Tokenize(text: string): Result<seq<Token>, ParseError> {
    if text == [] then Err(EmptyExpression) else TokensFrom(text, 0)
  }

  /** Licence and exception identifiers of an expression, each once. */
  function ParseExpression(text: string): Result<(seq<Token>, seq<Token>), ParseError> {
    match Tokenize(Strip(text))
    case Err(e) => Err(e)
    case Ok(ts) =>
      match Parse(ts)
      case Err(e) => Err(e)
      case Ok(e) => Ok((Distinct(OrLicenses(e)), Distinct(OrExceptions(e))))
  }

  // ---------------------------------------------------------------------
  // Printing.

  /** Tokens with one space between neighbours. */
  function Spaced(ts: seq<Token>): string
    requires ts != []
  {
    if |ts| == 1 then ts[0] else ts[0] + " " + Spaced(ts[1..])
  }

  /** A keyword followed by `.`, `+` or `-` would be read as the keyword. */
  predicate HidesKeyword(id: Token, keyword: Token) {
    keyword <= id && (|id| == |keyword| || !IsWordChar(id[|keyword|]))
  }

  /** What an identifier may go on with. */
  predicate Continues(c: char) {
    IsLetterOrDigit(c) || c in {'.', '+', '-'}
  }

  /** What the identifier pattern matches as a whole. */
  predicate IsShapedIdentifier(id: Token) {
    id != [] && IsLetterOrDigit(id[0]) && forall i :: 0 < i < |id| ==> Continues(id[i])
  }

  /** Identifiers that survive tokenising. */
  predicate IsCleanIdentifier(id: Token) {
    && IsShapedIdentifier(id)
    && !HidesKeyword(id, "AND") && !HidesKeyword(id, "OR") && !HidesKeyword(id, "WITH")
  }

  predicate IsShapedToken(t: Token) {
    t in KEYWORDS || IsShapedIdentifier(t)
  }

  predicate IsCleanToken(t: Token) {
    t in KEYWORDS || IsCleanIdentifier(t)
  }

  /** At a clean token followed by a space or the end, the scanner takes exactly that token. */
  lemma TokenEndsWhereWritten(text: string, i: nat, t: Token)
    requires IsCleanToken(t) && i + |t| <= |text| && text[i..i + |t|] == t
    requires i + |t| < |text| ==> text[i + |t|] == ' '
    ensures TokenEnd(text, i) == Some(i + |t|)
  {
    if t in {"AND", "OR", "WITH"} {
      KeywordIsTaken(text, i, t);
    } else if t in KEYWORDS {
      BracketIsTaken(text, i, t);
    } else {
      IdentifierIsTaken(text, i, t);
    }
  }

  lemma BracketIsTaken(text: string, i: nat, t: Token)
    requires t in {"(", ")"} && i + |t| <= |text| && text[i..i + |t|] == t
    ensures TokenEnd(text, i) == Some(i + |t|)
  {
    Written(text, i, t);
  }

  lemma IdentifierIsTaken(text: string, i: nat, t: Token)
    requires IsCleanIdentifier(t) && i + |t| <= |text| && text[i..i + |t|] == t
    requires i + |t| < |text| ==> text[i + |t|] == ' '
    ensures TokenEnd(text, i) == Some(i + |t|)
  {
    Written(text, i, t);
    NotAKeyword(text, i, t, "AND");
    NotAKeyword(text, i, t, "OR");
    NotAKeyword(text, i, t, "WITH");
    IdentifierEnds(text, i, |t|);
  }

  lemma Written(text: string, i: nat, t: Token)
    requires i + |t| <= |text| && text[i..i + |t|] == t
    ensures forall k :: i <= k < i + |t| ==> text[k] == t[k - i]
  {
    forall k | i <= k < i + |t|
      ensures text[k] == t[k - i]
    {
      assert text[i..i + |t|][k - i] == text[k];
    }
  }

  lemma {:induction false} IdentifierEnds(text: string, i: nat, n: nat)
    requires i + n <= |text| && forall k :: i <= k < i + n ==> IsIdentifierChar(text[k])
    requires i + n < |text| ==> !IsIdentifierChar(text[i + n])
    ensures SkipIdentifier(text, i) == i + n
    decreases n
  {
    if 0 < n {
      IdentifierEnds(text, i + 1, n - 1);
    }
  }

  lemma NotAKeyword(text: string, i: nat, id: Token, keyword: Token)
    requires keyword in {"AND", "OR", "WITH"}
    requires IsCleanIdentifier(id) && i + |id| <= |text| && text[i..i + |id|] == id
    requires i + |id| < |text| ==> text[i + |id|] == ' '
    ensures !KeywordAt(text, i, keyword)
  {
    Written(text, i, id);
    if i + |keyword| <= |text| && text[i..i + |keyword|] == keyword {
      Written(text, i, keyword);
      assert |keyword| <= |id| ==> keyword <= id;
    }
  }

  predicate AllClean(ts: seq<Token>) {
    forall t :: t in ts ==> IsCleanToken(t)
  }

  predicate AllShaped(ts: seq<Token>) {
    forall t :: t in ts ==> IsShapedToken(t)
  }

  /** The tokens stand at `i` with one space between neighbours, up to the end of the text. */
  predicate WrittenAt(text: string, i: nat, ts: seq<Token>)
    decreases |ts|
  {
    && ts != []
    && var end := i + |ts[0]|;
    && end <= |text| && text[i..end] == ts[0]
    && if |ts| == 1 then end == |text| else end < |text| && text[end] == ' ' && WrittenAt(text, end + 1, ts[1..])
  }

  lemma {:induction false} SpacedIsWritten(text: string, i: nat, ts: seq<Token>)
    requires ts != [] && i <= |text| && text[i..] == Spaced(ts)
    ensures WrittenAt(text, i, ts)
    decreases |ts|
  {
    var tail, n := text[i..], |ts[0]|;
    assert tail[..n] == ts[0];
    if |ts| > 1 {
      assert tail[n] == ' ' && tail[n + 1..] == Spaced(ts[1..]);
      SpacedIsWritten(text, i + n + 1, ts[1..]);
    }
  }

  /** The scan from `i` yields these tokens if they are all clean, and fails if one is not. */
  predicate ReadsAs(text: string, i: nat, ts: seq<Token>)
    requires i <= |text|
  {
    if AllClean(ts) then TokensFrom(text, i) == Ok(ts) else TokensFrom(text, i).Err?
  }

  lemma FirstAndRest(ts: seq<Token>)
    requires ts != []
    ensures AllClean(ts) <==> IsCleanToken(ts[0]) && AllClean(ts[1..])
    ensures AllShaped(ts) <==> IsShapedToken(ts[0]) && AllShaped(ts[1..])
  {
    assert ts == [ts[0]] + ts[1..];
  }

  /** White space before a token changes nothing. */
  lemma SkipOneSpace(text: string, i: nat, ts: seq<Token>)
    requires i + 1 < |text| && IsSpace(text[i]) && !IsSpace(text[i + 1])
    requires ReadsAs(text, i + 1, ts)
    ensures ReadsAs(text, i, ts)
  {
    assert SkipSpaces(text, i) == i + 1 == SkipSpaces(text, i + 1);
  }

  lemma NoMoreTokens(text: string, ts: seq<Token>)
    requires ts == []
    ensures ReadsAs(text, |text|, ts)
  {
  }

  lemma TakeToken(text: string, i: nat, end: nat, ts: seq<Token>)
    requires i < end <= |text| && !IsSpace(text[i]) && TokenEnd(text, i) == Some(end)
    requires ts != [] && IsCleanToken(ts[0]) && text[i..end] == ts[0] && ReadsAs(text, end, ts[1..])
    ensures ReadsAs(text, i, ts)
  {
    assert SkipSpaces(text, i) == i;
    assert ts == [ts[0]] + ts[1..];
    FirstAndRest(ts);
  }

  /** A token that starts with a keyword and then `.`, `+` or `-` breaks the scan. */
  lemma HiddenToken(text: string, i: nat, t: Token, ts: seq<Token>)
    requires t in ts && IsShapedToken(t) && !IsCleanToken(t)
    requires i + |t| <= |text| && text[i..i + |t|] == t
    ensures ReadsAs(text, i, ts)
  {
    var keyword := if HidesKeyword(t, "AND") then "AND" else if HidesKeyword(t, "OR") then "OR" else "WITH";
    NotWholeKeyword(t, keyword);
    Written(text, i, t);
    var end := i + |keyword|;
    assert text[i..end] == keyword;
    KeywordIsTaken(text, i, keyword);
    StopsAt(text, end);
    TakesAndFails(text, i, end);
  }

  lemma NotWholeKeyword(t: Token, keyword: Token)
    requires keyword in KEYWORDS && keyword <= t && t !in KEYWORDS
    ensures |keyword| < |t|
  {
    assert |keyword| == |t| ==> keyword == t;
  }

  lemma KeywordIsTaken(text: string, i: nat, keyword: Token)
    requires keyword in {"AND", "OR", "WITH"} && i <= |text| && KeywordAt(text, i, keyword)
    ensures i < i + |keyword| <= |text| && !IsSpace(text[i]) && TokenEnd(text, i) == Some(i + |keyword|)
  {
    Written(text, i, keyword);
  }

  lemma StopsAt(text: string, end: nat)
    requires end < |text| && (text[end] == '.' || text[end] == '+' || text[end] == '-')
    ensures TokensFrom(text, end).Err?
  {
    assert SkipSpaces(text, end) == end;
    StartOfKeyword(text, end, "AND");
    StartOfKeyword(text, end, "OR");
    StartOfKeyword(text, end, "WITH");
  }

  lemma StartOfKeyword(text: string, i: nat, keyword: Token)
    requires keyword in {"AND", "OR", "WITH"} && i < |text| && !IsAlphanumeric(text[i])
    ensures !KeywordAt(text, i, keyword)
  {
    if KeywordAt(text, i, keyword) {
      Written(text, i, keyword);
    }
  }

  lemma TakesAndFails(text: string, i: nat, end: nat)
    requires i < end <= |text| && !IsSpace(text[i]) && TokenEnd(text, i) == Some(end) && TokensFrom(text, end).Err?
    ensures TokensFrom(text, i).Err?
  {
    assert SkipSpaces(text, i) == i;
  }

  lemma FirstToken(text: string, i: nat, t: Token)
    requires IsCleanToken(t) && i + |t| <= |text| && text[i..i + |t|] == t
    requires i + |t| < |text| ==> text[i + |t|] == ' '
    ensures i < i + |t| && !IsSpace(text[i]) && TokenEnd(text, i) == Some(i + |t|)
  {
    TokenShape(t);
    Written(text, i, t);
    TokenEndsWhereWritten(text, i, t);
  }

  lemma WrittenStarts(text: string, i: nat, ts: seq<Token>)
    requires WrittenAt(text, i, ts) && IsShapedToken(ts[0])
    ensures i < |text| && !IsSpace(text[i])
  {
    TokenShape(ts[0]);
    Written(text, i, ts[0]);
  }

  /** Scanning written tokens. */
  lemma {:induction false} ScanWritten(text: string, i: nat, ts: seq<Token>)
    requires WrittenAt(text, i, ts) && AllShaped(ts)
    ensures i <= |text| && ReadsAs(text, i, ts)
    decreases |ts|, 1
  {
    FirstAndRest(ts);
    if IsCleanToken(ts[0]) {
      FirstToken(text, i, ts[0]);
      ScanRest(text, i, ts);
      TakeToken(text, i, i + |ts[0]|, ts);
    } else {
      HiddenToken(text, i, ts[0], ts);
    }
  }

  lemma {:induction false} ScanRest(text: string, i: nat, ts: seq<Token>)
    requires WrittenAt(text, i, ts) && AllShaped(ts[1..])
    ensures ReadsAs(text, i + |ts[0]|, ts[1..])
    decreases |ts|, 0
  {
    var end, more := i + |ts[0]|, ts[1..];
    if more == [] {
      NoMoreTokens(text, more);
    } else {
      ScanAfterSpace(text, end, more);
    }
  }

  lemma {:induction false} ScanAfterSpace(text: string, end: nat, more: seq<Token>)
    requires end < |text| && text[end] == ' ' && WrittenAt(text, end + 1, more) && AllShaped(more)
    ensures ReadsAs(text, end, more)
    decreases |more|, 2
  {
    FirstAndRest(more);
    ScanWritten(text, end + 1, more);
    WrittenStarts(text, end + 1, more);
    SkipOneSpace(text, end, more);
  }

  lemma TokenShape(t: Token)
    requires IsShapedToken(t)
    ensures t != [] && !IsSpace(t[0]) && !IsSpace(t[|t| - 1])
  {
    assert t == "(" || t == ")" || t == "AND" || t == "OR" || t == "WITH" || IsShapedIdentifier(t);
  }

  lemma {:induction false} SpacedEnds(ts: seq<Token>)
    requires ts != [] && AllShaped(ts)
    ensures var s := Spaced(ts);
            s != [] && !IsSpace(s[0]) && !IsSpace(s[|s| - 1])
  {
    TokenShape(ts[0]);
    if |ts| > 1 {
      SpacedEnds(ts[1..]);
    }
  }

  // ---------------------------------------------------------------------
  // Licence expressions as terms.

  datatype Expression =
    | Simple(license: Token)
    | Excepted(license: Token, exception: Token)
    | Both(left: Expression, right: Expression)
    | Either(left: Expression, right: Expression)

  /** Every identifier is one the identifier pattern matches. */
  predicate IsShaped(e: Expression) {
    match e
    case Simple(license) => IsShapedIdentifier(license)
    case Excepted(license, exception) => IsShapedIdentifier(license) && IsShapedIdentifier(exception)
    case Both(l, r) => IsShaped(l) && IsShaped(r)
    case Either(l, r) => IsShaped(l) && IsShaped(r)
  }

  /** None of them begins with a keyword at whose end a word ends. */
  predicate IsClean(e: Expression) {
    match e
    case Simple(license) => IsCleanIdentifier(license)
    case Excepted(license, exception) => IsCleanIdentifier(license) && IsCleanIdentifier(exception)
    case Both(l, r) => IsClean(l) && IsClean(r)
    case Either(l, r) => IsClean(l) && IsClean(r)
  }

  function Licenses(e: Expression): seq<Token> {
    match e
    case Simple(license) => [license]
    case Excepted(license, _) => [license]
    case Both(l, r) => Licenses(l) + Licenses(r)
    case Either(l, r) => Licenses(l) + Licenses(r)
  }

  function Exceptions(e: Expression): seq<Token> {
    match e
    case Simple(_) => []
    case Excepted(_, exception) => [exception]
    case Both(l, r) => Exceptions(l) + Exceptions(r)
    case Either(l, r) => Exceptions(l) + Exceptions(r)
  }

  /** What an expression asks, given which licences (with which exception) are granted. */
  predicate Grants(e: Expression, granted: set<(Token, Option<Token>)>) {
    match e
    case Simple(license) => (license, None) in granted
    case Excepted(license, exception) => (license, Some(exception)) in granted
    case Both(l, r) => Grants(l, granted) && Grants(r, granted)
    case Either(l, r) => Grants(l, granted) || Grants(r, granted)
  }

  predicate OrGrants(e: OrExpr, granted: set<(Token, Option<Token>)>) {
    match e
    case OneAnd(a) => AndGrants(a, granted)
    case OrMore(a, more) => AndGrants(a, granted) || OrGrants(more, granted)
  }

  predicate AndGrants(e: AndExpr, granted: set<(Token, Option<Token>)>) {
    match e
    case OneWith(w) => WithGrants(w, granted)
    case AndMore(w, more) => WithGrants(w, granted) && AndGrants(more, granted)
  }

  predicate WithGrants(e: WithExpr, granted: set<(Token, Option<Token>)>) {
    match e
    case Plain(License(id)) => (id, None) in granted
    case Plain(Group(inner)) => OrGrants(inner, granted)
    case With(license, exception) => (license, Some(exception)) in granted
  }

  function JoinOr(a: OrExpr, b: OrExpr): OrExpr {
    match a
    case OneAnd(x) => OrMore(x, b)
    case OrMore(x, more) => OrMore(x, JoinOr(more, b))
  }

  function JoinAnd(a: AndExpr, b: AndExpr): AndExpr {
    match a
    case OneWith(x) => AndMore(x, b)
    case AndMore(x, more) => AndMore(x, JoinAnd(more, b))
  }

  /** The expression with parentheses only round an OR inside an AND. */
  function AsOr(e: Expression): OrExpr
    decreases e, if e.Either? then 0 else 1
  {
    match e
    case Either(l, r) => JoinOr(AsOr(l), AsOr(r))
    case _ => OneAnd(AsAnd(e))
  }

  function AsAnd(e: Expression): AndExpr
    decreases e, if e.Either? then 1 else 0
  {
    match e
    case Simple(license) => OneWith(Plain(License(license)))
    case Excepted(license, exception) => OneWith(With(license, exception))
    case Both(l, r) => JoinAnd(AsAnd(l), AsAnd(r))
    case Either(_, _) => OneWith(Plain(Group(AsOr(e))))
  }

  function Print(e: Expression): string {
    Spaced(OrYield(AsOr(e)))
  }

  /** The tree is well formed and its tokens all survive tokenising. */
  predicate OrClean(e: OrExpr) {
    OrFormed(e) && AllClean(OrYield(e))
  }

  predicate AndClean(e: AndExpr) {
    AndFormed(e) && AllClean(AndYield(e))
  }

  lemma {:induction false} JoinOrFacts(a: OrExpr, b: OrExpr, granted: set<(Token, Option<Token>)>)
    ensures OrYield(JoinOr(a, b)) == OrYield(a) + ["OR"] + OrYield(b)
    ensures OrLicenses(JoinOr(a, b)) == OrLicenses(a) + OrLicenses(b)
    ensures OrExceptions(JoinOr(a, b)) == OrExceptions(a) + OrExceptions(b)
    ensures OrFormed(a) && OrFormed(b) ==> OrFormed(JoinOr(a, b))
    ensures OrGrants(JoinOr(a, b), granted) <==> OrGrants(a, granted) || OrGrants(b, granted)
  {
    match a
    case OneAnd(_) =>
    case OrMore(x, more) =>
      JoinOrFacts(more, b, granted);
      assert AndYield(x) + ["OR"] + (OrYield(more) + ["OR"] + OrYield(b))
          == (AndYield(x) + ["OR"] + OrYield(more)) + ["OR"] + OrYield(b);
  }

  lemma {:induction false} JoinAndFacts(a: AndExpr, b: AndExpr, granted: set<(Token, Option<Token>)>)
    ensures AndYield(JoinAnd(a, b)) == AndYield(a) + ["AND"] + AndYield(b)
    ensures AndLicenses(JoinAnd(a, b)) == AndLicenses(a) + AndLicenses(b)
    ensures AndExceptions(JoinAnd(a, b)) == AndExceptions(a) + AndExceptions(b)
    ensures AndFormed(a) && AndFormed(b) ==> AndFormed(JoinAnd(a, b))
    ensures AndGrants(JoinAnd(a, b), granted) <==> AndGrants(a, granted) && AndGrants(b, granted)
  {
    match a
    case OneWith(_) =>
    case AndMore(x, more) =>
      JoinAndFacts(more, b, granted);
      assert WithYield(x) + ["AND"] + (AndYield(more) + ["AND"] + AndYield(b))
          == (WithYield(x) + ["AND"] + AndYield(more)) + ["AND"] + AndYield(b);
  }

  lemma {:induction false} AsOrFacts(e: Expression, granted: set<(Token, Option<Token>)>)
    requires IsShaped(e)
    ensures AllShaped(OrYield(AsOr(e))) && (IsClean(e) ==> OrClean(AsOr(e)))
    ensures OrLicenses(AsOr(e)) == Licenses(e) && OrExceptions(AsOr(e)) == Exceptions(e)
    ensures OrGrants(AsOr(e), granted) <==> Grants(e, granted)
    decreases e, if e.Either? then 0 else 1
  {
    match e
    case Either(l, r) =>
      AsOrFacts(l, granted);
      AsOrFacts(r, granted);
      JoinOrFacts(AsOr(l), AsOr(r), granted);
    case _ => AsAndFacts(e, granted);
  }

  lemma {:induction false} AsAndFacts(e: Expression, granted: set<(Token, Option<Token>)>)
    requires IsShaped(e)
    ensures AllShaped(AndYield(AsAnd(e))) && (IsClean(e) ==> AndClean(AsAnd(e)))
    ensures AndLicenses(AsAnd(e)) == Licenses(e) && AndExceptions(AsAnd(e)) == Exceptions(e)
    ensures AndGrants(AsAnd(e), granted) <==> Grants(e, granted)
    decreases e, if e.Either? then 1 else 0
  {
    match e
    case Simple(license) =>
      if IsClean(e) {
        CleanIsIdentifier(license);
      }
      assert AndYield(AsAnd(e)) == PrimaryYield(License(license)) == [license];
      assert AndLicenses(AsAnd(e)) == PrimaryLicenses(License(license));
      assert AndExceptions(AsAnd(e)) == PrimaryExceptions(License(license));
    case Excepted(license, exception) =>
      if IsClean(e) {
        CleanIsIdentifier(license);
        CleanIsIdentifier(exception);
      }
    case Both(l, r) =>
      AsAndFacts(l, granted);
      AsAndFacts(r, granted);
      JoinAndFacts(AsAnd(l), AsAnd(r), granted);
    case Either(_, _) =>
      AsOrFacts(e, granted);
      var group := Group(AsOr(e));
      assert AsAnd(e) == OneWith(Plain(group));
      assert AndYield(AsAnd(e)) == PrimaryYield(group) == ["("] + OrYield(AsOr(e)) + [")"];
      assert AndLicenses(AsAnd(e)) == PrimaryLicenses(group);
      assert AndExceptions(AsAnd(e)) == PrimaryExceptions(group);
  }

  lemma CleanIsIdentifier(id: Token)
    requires IsCleanIdentifier(id)
    ensures IsIdentifier(id)
  {
    assert id != "(" && id != ")";
    assert id == "AND" ==> HidesKeyword(id, "AND");
    assert id == "OR" ==> HidesKeyword(id, "OR");
    assert id == "WITH" ==> HidesKeyword(id, "WITH");
  }

  lemma {:induction false} CleanIfAllIds(e: Expression)
    requires forall t :: t in Licenses(e) || t in Exceptions(e) ==> IsCleanIdentifier(t)
    ensures IsClean(e)
  {
    match e
    case Simple(license) => assert license in Licenses(e);
    case Excepted(license, exception) => assert license in Licenses(e) && exception in Exceptions(e);
    case Both(l, r) =>
      CleanIfAllIds(l);
      CleanIfAllIds(r);
    case Either(l, r) =>
      CleanIfAllIds(l);
      CleanIfAllIds(r);
  }

  /** An expression whose identifiers are all read back is clean. */
  lemma ReadBackIsClean(e: Expression, tree: OrExpr)
    requires IsShaped(e) && AllClean(OrYield(AsOr(e))) && OrFormed(tree)
    requires Distinct(OrLicenses(tree)) == Distinct(Licenses(e))
    requires Distinct(OrExceptions(tree)) == Distinct(Exceptions(e))
    ensures IsClean(e)
  {
    AsOrFacts(e, {});
    DistinctIsFirstOccurrences(OrLicenses(tree));
    DistinctIsFirstOccurrences(Licenses(e));
    DistinctIsFirstOccurrences(OrExceptions(tree));
    DistinctIsFirstOccurrences(Exceptions(e));
    forall t | t in Licenses(e) || t in Exceptions(e)
      ensures IsCleanIdentifier(t)
    {
      OrIdentifiers(tree, t);
      OrIdentifiers(AsOr(e), t);
    }
    CleanIfAllIds(e);
  }

  /** Where the scan of a stripped text yields tokens, the expression is what the parser makes of them. */
  lemma ScannedIsParsed(text: string, ts: seq<Token>)
    requires Strip(text) == text && Tokenize(text) == Ok(ts)
    ensures var r := Parse(ts);
            if r.Err? then ParseExpression(text).Err?
            else ParseExpression(text) == Ok((Distinct(OrLicenses(r.value)), Distinct(OrExceptions(r.value))))
  {
  }

  lemma UnscannedIsRefused(text: string)
    requires Strip(text) == text && Tokenize(text).Err?
    ensures ParseExpression(text).Err?
  {
  }

  /** Tokens that are all clean give the identifiers back only for a clean expression. */
  lemma UncleanIsNotReadBack(e: Expression, ts: seq<Token>)
    requires IsShaped(e) && !IsClean(e) && ts == OrYield(AsOr(e)) && AllClean(ts) && Parse(ts).Ok?
    ensures var tree := Parse(ts).value;
            (Distinct(OrLicenses(tree)), Distinct(OrExceptions(tree))) != (Distinct(Licenses(e)), Distinct(Exceptions(e)))
  {
    var tree := Parse(ts).value;
    ParserIsTheGrammar(ts, tree);
    if Distinct(OrLicenses(tree)) == Distinct(Licenses(e)) && Distinct(OrExceptions(tree)) == Distinct(Exceptions(e)) {
      ReadBackIsClean(e, tree);
    }
  }

  lemma CleanIsReadBack(e: Expression)
    requires IsShaped(e) && IsClean(e)
    ensures ParseExpression(Print(e)) == Ok((Distinct(Licenses(e)), Distinct(Exceptions(e))))
  {
    var ts := OrYield(AsOr(e));
    AsOrFacts(e, {});
    PrintedIsScanned(e);
    ParserIsTheGrammar(ts, AsOr(e));
    ScannedIsParsed(Print(e), ts);
  }

  lemma UncleanIsLost(e: Expression)
    requires IsShaped(e) && !IsClean(e)
    ensures ParseExpression(Print(e)) != Ok((Distinct(Licenses(e)), Distinct(Exceptions(e))))
  {
    var ts := OrYield(AsOr(e));
    PrintedIsScanned(e);
    if AllClean(ts) {
      ScannedIsParsed(Print(e), ts);
      if Parse(ts).Ok? {
        UncleanIsNotReadBack(e, ts);
      }
    } else {
      UnscannedIsRefused(Print(e));
    }
  }

  /**
   Print and parse, for every expression whose identifiers have the shape of
   one: they come back, each once, in the order in which they first occur,
   exactly when none begins with a keyword at whose end a word ends.
   */
  lemma PrintParse(e: Expression)
    requires IsShaped(e)
    ensures ParseExpression(Print(e)) == Ok((Distinct(Licenses(e)), Distinct(Exceptions(e)))) <==> IsClean(e)
  {
    if IsClean(e) {
      CleanIsReadBack(e);
    } else {
      UncleanIsLost(e);
    }
  }

  /** Printed tokens have no white space to strip, and scan to themselves or not at all. */
  lemma SpacedIsScanned(text: string, ts: seq<Token>)
    requires ts != [] && AllShaped(ts) && text == Spaced(ts)
    ensures Strip(text) == text && if AllClean(ts) then Tokenize(text) == Ok(ts) else Tokenize(text).Err?
  {
    SpacedEnds(ts);
    StripIsIdentity(text);
    assert text[0..] == text;
    SpacedIsWritten(text, 0, ts);
    ScanWritten(text, 0, ts);
  }

  lemma PrintedIsScanned(e: Expression)
    requires IsShaped(e)
    ensures var ts := OrYield(AsOr(e));
            Strip(Print(e)) == Print(e) && if AllClean(ts) then Tokenize(Print(e)) == Ok(ts) else Tokenize(Print(e)).Err?
  {
    AsOrFacts(e, {});
    SpacedIsScanned(Print(e), OrYield(AsOr(e)));
  }

  /** And the tree read back is the one printed, with the meaning of the expression. */
  lemma PrintParseMeaning(e: Expression)
    requires IsShaped(e) && IsClean(e)
    ensures Tokenize(Strip(Print(e))).Ok? && Parse(Tokenize(Strip(Print(e))).value) == Ok(AsOr(e))
    ensures forall granted :: OrGrants(AsOr(e), granted) <==> Grants(e, granted)
  {
    AsOrFacts(e, {});
    PrintedIsScanned(e);
    ParserIsTheGrammar(OrYield(AsOr(e)), AsOr(e));
    forall granted
      ensures OrGrants(AsOr(e), granted) <==> Grants(e, granted)
    {
      AsOrFacts(e, granted);
    }
  }

  lemma StripIsIdentity(text: string)
    requires text != [] && !IsSpace(text[0]) && !IsSpace(text[|text| - 1])
    ensures Strip(text) == text
  {
    assert SkipSpaces(text, 0) == 0;
    assert text[0..] == text;
  }
}
