/** The expression parser as an object: a cursor over the tokens and two growing lists of identifiers. */
module SpdxParser {
  import opened Basics
  import opened SpdxGrammar
  import opened SpdxTokens

  /** Tokens already taken, in front of what the rest of the scan yields. */
  function TokensAfter(tokens: seq<Token>, r: Result<seq<Token>, ParseError>): Result<seq<Token>, ParseError> {
    match r
    case Err(e) => Err(e)
    case Ok(ts) => Ok(tokens + ts)
  }

  lemma TokensStep(text: string, i: nat, tokens: seq<Token>)
    requires i < |text|
    ensures var start := SkipSpaces(text, i);
            var end := TokenEnd(text, start);
            TokensAfter(tokens, TokensFrom(text, i))
            == if end.None? then Err(UnexpectedCharacter(i + 1))
               else TokensAfter(tokens + [text[start..end.value]], TokensFrom(text, end.value))
  {
    var start := SkipSpaces(text, i);
    var end := TokenEnd(text, start);
    if end.Some? && TokensFrom(text, end.value).Ok? {
      var t, ts := text[start..end.value], TokensFrom(text, end.value).value;
      assert tokens + ([t] + ts) == (tokens + [t]) + ts;
    }
  }

  lemma TokensStart(text: string)
    ensures TokensAfter([], TokensFrom(text, 0)) == TokensFrom(text, 0)
    ensures forall tokens :: TokensAfter(tokens, TokensFrom(text, |text|)) == Ok(tokens)
  {
    if TokensFrom(text, 0).Ok? {
      assert [] + TokensFrom(text, 0).value == TokensFrom(text, 0).value;
    }
    forall tokens: seq<Token>
      ensures tokens + [] == tokens
    {
    }
  }

  method ScanTokens(text: string) returns (r: Result<seq<Token>, ParseError>)
    ensures r == Tokenize(text)
  {
    if text == "" {
      return Err(EmptyExpression);
    }
    var tokens: seq<Token> := [];
    var offset := 0;
    TokensStart(text);
    while offset < |text|
      invariant offset <= |text|
      invariant TokensAfter(tokens, TokensFrom(text, offset)) == TokensFrom(text, 0)
    {
      var start := SkipSpaces(text, offset);
      var end := TokenEnd(text, start);
      TokensStep(text, offset, tokens);
      if end.None? {
        return Err(UnexpectedCharacter(offset + 1));
      }
      tokens := tokens + [text[start..end.value]];
      offset := end.value;
    }
    return Ok(tokens);
  }

  /** What a parsing step leaves to read and the identifiers it collected. */
  datatype Outcome = Outcome(rest: seq<Token>, licenses: seq<Token>, exceptions: seq<Token>)

  function After(licenses: seq<Token>, exceptions: seq<Token>, r: Result<Outcome, ParseError>): Result<Outcome, ParseError> {
    match r
    case Err(e) => Err(e)
    case Ok(o) => Ok(Outcome(o.rest, licenses + o.licenses, exceptions + o.exceptions))
  }

  function OrOutcome(ts: seq<Token>): Result<Outcome, ParseError> {
    match ParseOr(ts)
    case Err(e) => Err(e)
    case Ok(Parsed(e, rest)) => Ok(Outcome(rest, OrLicenses(e), OrExceptions(e)))
  }

  function AndOutcome(ts: seq<Token>): Result<Outcome, ParseError> {
    match ParseAnd(ts)
    case Err(e) => Err(e)
    case Ok(Parsed(e, rest)) => Ok(Outcome(rest, AndLicenses(e), AndExceptions(e)))
  }

  function WithOutcome(ts: seq<Token>): Result<Outcome, ParseError> {
    match ParseWith(ts)
    case Err(e) => Err(e)
    case Ok(Parsed(e, rest)) => Ok(Outcome(rest, WithLicenses(e), WithExceptions(e)))
  }

  function PrimaryOutcome(ts: seq<Token>): Result<Outcome, ParseError> {
    match ParsePrimary(ts)
    case Err(e) => Err(e)
    case Ok(Parsed(e, rest)) => Ok(Outcome(rest, PrimaryLicenses(e), PrimaryExceptions(e)))
  }

  /** What the OR loop still takes: nothing, or an OR and another disjunction. */
  function OrTail(ts: seq<Token>): Result<Outcome, ParseError> {
    if Next(ts, "OR") then OrOutcome(ts[1..]) else Ok(Outcome(ts, [], []))
  }

  function AndTail(ts: seq<Token>): Result<Outcome, ParseError> {
    if Next(ts, "AND") then AndOutcome(ts[1..]) else Ok(Outcome(ts, [], []))
  }

  /** A disjunction is a conjunction and then the loop. */
  lemma OrLoops(ts: seq<Token>)
    ensures OrOutcome(ts) == match AndOutcome(ts)
                             case Err(e) => Err(e)
                             case Ok(o) => After(o.licenses, o.exceptions, OrTail(o.rest))
  {
    if AndOutcome(ts).Ok? {
      var o := AndOutcome(ts).value;
      assert o.licenses + [] == o.licenses && o.exceptions + [] == o.exceptions;
    }
  }

  lemma AndLoops(ts: seq<Token>)
    ensures AndOutcome(ts) == match WithOutcome(ts)
                              case Err(e) => Err(e)
                              case Ok(o) => After(o.licenses, o.exceptions, AndTail(o.rest))
  {
    if WithOutcome(ts).Ok? {
      var o := WithOutcome(ts).value;
      assert o.licenses + [] == o.licenses && o.exceptions + [] == o.exceptions;
    }
  }

  lemma OrStep(ts: seq<Token>, licenses: seq<Token>, exceptions: seq<Token>)
    ensures var first := After(licenses, exceptions, AndOutcome(ts));
            After(licenses, exceptions, OrOutcome(ts))
            == match first
               case Err(e) => Err(e)
               case Ok(o) => After(o.licenses, o.exceptions, OrTail(o.rest))
  {
    OrLoops(ts);
    if AndOutcome(ts).Ok? {
      var o := AndOutcome(ts).value;
      AfterAfter(licenses, exceptions, o.licenses, o.exceptions, OrTail(o.rest));
    }
  }

  lemma AndStep(ts: seq<Token>, licenses: seq<Token>, exceptions: seq<Token>)
    ensures var first := After(licenses, exceptions, WithOutcome(ts));
            After(licenses, exceptions, AndOutcome(ts))
            == match first
               case Err(e) => Err(e)
               case Ok(o) => After(o.licenses, o.exceptions, AndTail(o.rest))
  {
    AndLoops(ts);
    if WithOutcome(ts).Ok? {
      var o := WithOutcome(ts).value;
      AfterAfter(licenses, exceptions, o.licenses, o.exceptions, AndTail(o.rest));
    }
  }

  lemma AfterAfter(l1: seq<Token>, e1: seq<Token>, l2: seq<Token>, e2: seq<Token>, r: Result<Outcome, ParseError>)
    ensures After(l1, e1, After(l2, e2, r)) == After(l1 + l2, e1 + e2, r)
  {
    if r.Ok? {
      assert l1 + (l2 + r.value.licenses) == (l1 + l2) + r.value.licenses;
      assert e1 + (e2 + r.value.exceptions) == (e1 + e2) + r.value.exceptions;
    }
  }

  class ExpressionParser {
    const tokens: seq<Token>
    var index: nat
    var licenseIds: seq<Token>
    var exceptionIds: seq<Token>

    constructor (tokens: seq<Token>)
      ensures this.tokens == tokens && index == 0 && licenseIds == [] && exceptionIds == []
    {
      this.tokens := tokens;
      index, licenseIds, exceptionIds := 0, [], [];
    }

    function Left(): seq<Token>
      reads this
      requires index <= |tokens|
    {
      tokens[index..]
    }

    /** Where a step has got to: its failure, or the cursor and lists. */
    function Reached(failure: Option<ParseError>): Result<Outcome, ParseError>
      reads this
      requires index <= |tokens|
    {
      if failure.Some? then Err(failure.value) else Ok(Outcome(Left(), licenseIds, exceptionIds))
    }

    method Parse() returns (r: Result<(seq<Token>, seq<Token>), ParseError>)
      requires index == 0 && licenseIds == [] && exceptionIds == []
      modifies this
      ensures r == match SpdxGrammar.Parse(tokens)
                   case Err(e) => Err(e)
                   case Ok(e) => Ok((Distinct(OrLicenses(e)), Distinct(OrExceptions(e))))
    {
      assert Left() == tokens;
      var failure := ParseOr();
      if failure.Some? {
        return Err(failure.value);
      }
      if index != |tokens| {
        return Err(TrailingToken(tokens[index]));
      }
      assert licenseIds == OrOutcome(tokens).value.licenses && exceptionIds == OrOutcome(tokens).value.exceptions;
      return Ok((Distinct(licenseIds), Distinct(exceptionIds)));
    }

    method ParseOr() returns (failure: Option<ParseError>)
      requires index <= |tokens|
      modifies this`index, this`licenseIds, this`exceptionIds
      ensures old(index) <= index <= |tokens| && (failure.None? ==> old(index) < index)
      ensures Reached(failure) == After(old(licenseIds), old(exceptionIds), OrOutcome(old(Left())))
      decreases |tokens| - index, 3
    {
      ghost var goal := After(licenseIds, exceptionIds, OrOutcome(Left()));
      OrStep(Left(), licenseIds, exceptionIds);
      failure := ParseAnd();
      while failure.None? && index < |tokens| && tokens[index] == "OR"
        invariant old(index) <= index <= |tokens| && (failure.None? ==> old(index) < index)
        invariant failure.Some? ==> goal == Err(failure.value)
        invariant failure.None? ==> goal == After(licenseIds, exceptionIds, OrTail(Left()))
        decreases |tokens| - index
      {
        assert Left()[1..] == tokens[index + 1..];
        index := index + 1;
        OrStep(Left(), licenseIds, exceptionIds);
        failure := ParseAnd();
      }
      assert licenseIds + [] == licenseIds && exceptionIds + [] == exceptionIds;
    }

    method ParseAnd() returns (failure: Option<ParseError>)
      requires index <= |tokens|
      modifies this`index, this`licenseIds, this`exceptionIds
      ensures old(index) <= index <= |tokens| && (failure.None? ==> old(index) < index)
      ensures Reached(failure) == After(old(licenseIds), old(exceptionIds), AndOutcome(old(Left())))
      decreases |tokens| - index, 2
    {
      ghost var goal := After(licenseIds, exceptionIds, AndOutcome(Left()));
      AndStep(Left(), licenseIds, exceptionIds);
      failure := ParseWith();
      while failure.None? && index < |tokens| && tokens[index] == "AND"
        invariant old(index) <= index <= |tokens| && (failure.None? ==> old(index) < index)
        invariant failure.Some? ==> goal == Err(failure.value)
        invariant failure.None? ==> goal == After(licenseIds, exceptionIds, AndTail(Left()))
        decreases |tokens| - index
      {
        assert Left()[1..] == tokens[index + 1..];
        index := index + 1;
        AndStep(Left(), licenseIds, exceptionIds);
        failure := ParseWith();
      }
      assert licenseIds + [] == licenseIds && exceptionIds + [] == exceptionIds;
    }

    method ParseWith() returns (failure: Option<ParseError>)
      requires index <= |tokens|
      modifies this`index, this`licenseIds, this`exceptionIds
      ensures old(index) <= index <= |tokens| && (failure.None? ==> old(index) < index)
      ensures Reached(failure) == After(old(licenseIds), old(exceptionIds), WithOutcome(old(Left())))
      decreases |tokens| - index, 1
    {
      var simple;
      failure, simple := ParsePrimary();
      if failure.None? && index < |tokens| && tokens[index] == "WITH" {
        if !simple {
          return Some(WithAfterGroup);
        }
        ghost var rest := Left();
        assert old(exceptionIds) + [] == old(exceptionIds);
        index := index + 1;
        if index == |tokens| {
          return Some(UnexpectedEnd);
        }
        var exception := tokens[index];
        index := index + 1;
        if exception in KEYWORDS {
          return Some(NotAnException(exception));
        }
        exceptionIds := exceptionIds + [exception];
        assert Left() == rest[2..];
      }
    }

    method ParsePrimary() returns (failure: Option<ParseError>, simple: bool)
      requires index <= |tokens|
      modifies this`index, this`licenseIds, this`exceptionIds
      ensures old(index) <= index <= |tokens| && (failure.None? ==> old(index) < index)
      ensures Reached(failure) == After(old(licenseIds), old(exceptionIds), PrimaryOutcome(old(Left())))
      ensures failure.None? ==> simple == SpdxGrammar.ParsePrimary(old(Left())).value.tree.License?
      decreases |tokens| - index, 0
    {
      failure, simple := None, false;
      if index == |tokens| {
        return Some(UnexpectedEnd), false;
      }
      var token := tokens[index];
      assert Left()[1..] == tokens[index + 1..];
      index := index + 1;
      if token == "(" {
        failure := ParseOr();
        if failure.Some? {
          return;
        }
        if index == |tokens| {
          return Some(UnexpectedEnd), false;
        }
        if tokens[index] != ")" {
          return Some(Expected(")", tokens[index])), false;
        }
        assert Left()[1..] == tokens[index + 1..];
        index := index + 1;
      } else if token in KEYWORDS {
        return Some(NotALicense(token)), false;
      } else {
        licenseIds := licenseIds + [token];
        simple := true;
        assert exceptionIds + [] == exceptionIds;
      }
    }
  }

  /** A licence expression's identifiers: tokenise, then parse. */
  method ReadExpression(text: string) returns (r: Result<(seq<Token>, seq<Token>), ParseError>)
    ensures r == ParseExpression(text)
  {
    var tokens := ScanTokens(Strip(text));
    if tokens.Err? {
      return Err(tokens.error);
    }
    var parser := new ExpressionParser(tokens.value);
    r := parser.Parse();
  }
}
