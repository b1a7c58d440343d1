/**
 The error a licence expression is refused with, without the recursion: one
 pass over the tokens that keeps the kind of the last token and the number of
 groups that are open.
 */
module SpdxErrors {
  import opened Basics
  import opened SpdxGrammar

  /** What the tokens read so far end in. */
  datatype Last = Nothing | Identifier | WithWord | Exception | Close

  /** Where one more token leads, unless it is refused. */
  function After(t: Token, last: Last, open: nat): Option<(Last, nat)> {
    var keyword := t == "(" || t == "AND" || t == "OR" || t == "WITH" || t == ")";
    if last == Nothing then
      if t == "(" then Some((Nothing, open + 1)) else if keyword then None else Some((Identifier, open))
    else if last == WithWord then
      if keyword then None else Some((Exception, open))
    else if t == "AND" || t == "OR" then Some((Nothing, open))
    else if t == "WITH" && last == Identifier then Some((WithWord, open))
    else if t == ")" && 0 < open then Some((Close, open - 1))
    else None
  }

  /** How a token that leads nowhere is refused. */
  function Refusal(t: Token, last: Last, open: nat): ParseError {
    if last == Nothing then NotALicense(t)
    else if last == WithWord then NotAnException(t)
    else if t == "WITH" && last == Close then WithAfterGroup
    else if open == 0 then TrailingToken(t)
    else Expected(")", t)
  }

  /** The first error, if there is one. */
  function Walk(ts: seq<Token>, last: Last, open: nat): Option<ParseError> {
    if ts == [] then
      if last == Nothing || last == WithWord || 0 < open then Some(UnexpectedEnd) else None
    else
      match After(ts[0], last, open)
      case Some((next, depth)) => Walk(ts[1..], next, depth)
      case None => Some(Refusal(ts[0], last, open))
  }

  /** A tree ends here: its last token is `last`, and nothing in `rest` carries it on. */
  predicate Ends(rest: seq<Token>, last: Last) {
    && (last == Identifier || last == Exception || last == Close)
    && (Next(rest, "WITH") ==> last == Exception)
  }

  lemma {:induction false} OrWalks(ts: seq<Token>, open: nat) returns (last: Last)
    ensures match ParseOr(ts)
            case Err(e) => Walk(ts, Nothing, open) == Some(e)
            case Ok(Parsed(_, rest)) =>
              && Ends(rest, last) && !Next(rest, "OR") && !Next(rest, "AND")
              && Walk(ts, Nothing, open) == Walk(rest, last, open)
    decreases |ts|, 3
  {
    last := AndWalks(ts, open);
    var first := ParseAnd(ts);
    if first.Ok? && Next(first.value.rest, "OR") {
      last := OrWalks(first.value.rest[1..], open);
    }
  }

  lemma {:induction false} AndWalks(ts: seq<Token>, open: nat) returns (last: Last)
    ensures match ParseAnd(ts)
            case Err(e) => Walk(ts, Nothing, open) == Some(e)
            case Ok(Parsed(_, rest)) =>
              && Ends(rest, last) && !Next(rest, "AND")
              && Walk(ts, Nothing, open) == Walk(rest, last, open)
    decreases |ts|, 2
  {
    last := WithWalks(ts, open);
    var first := ParseWith(ts);
    if first.Ok? && Next(first.value.rest, "AND") {
      last := AndWalks(first.value.rest[1..], open);
    }
  }

  lemma {:induction false} WithWalks(ts: seq<Token>, open: nat) returns (last: Last)
    ensures match ParseWith(ts)
            case Err(e) => Walk(ts, Nothing, open) == Some(e)
            case Ok(Parsed(_, rest)) => Ends(rest, last) && Walk(ts, Nothing, open) == Walk(rest, last, open)
    decreases |ts|, 1
  {
    last := PrimaryWalks(ts, open);
    var first := ParsePrimary(ts);
    if first.Ok? && Next(first.value.rest, "WITH") && first.value.tree.License? {
      var rest := first.value.rest;
      assert Walk(rest, Identifier, open) == Walk(rest[1..], WithWord, open);
      if 2 <= |rest| && IsIdentifier(rest[1]) {
        assert rest[1..][1..] == rest[2..];
        last := Exception;
      }
    }
  }

  lemma {:induction false} PrimaryWalks(ts: seq<Token>, open: nat) returns (last: Last)
    ensures match ParsePrimary(ts)
            case Err(e) => Walk(ts, Nothing, open) == Some(e)
            case Ok(Parsed(p, rest)) =>
              && last == (if p.License? then Identifier else Close)
              && Walk(ts, Nothing, open) == Walk(rest, last, open)
    decreases |ts|, 0
  {
    last := Identifier;
    if ts != [] && ts[0] == "(" {
      var inner := OrWalks(ts[1..], open + 1);
      last := Close;
    }
  }

  /** The recursive descent and the one pass accept the same tokens and refuse the others with the same error. */
  lemma ParseErrorIsFirst(ts: seq<Token>)
    ensures match Parse(ts)
            case Ok(_) => Walk(ts, Nothing, 0) == None
            case Err(e) => Walk(ts, Nothing, 0) == Some(e)
  {
    var last := OrWalks(ts, 0);
  }

  lemma {:induction false} NeverEmpty(ts: seq<Token>, last: Last, open: nat)
    ensures Walk(ts, last, open) != Some(EmptyExpression)
  {
    if ts != [] {
      match After(ts[0], last, open)
      case Some((next, depth)) => NeverEmpty(ts[1..], next, depth);
      case None =>
    }
  }

  // ---------------------------------------------------------------------
  // Which tokens can still become an expression.

  lemma {:induction false} ErrorStays(ts: seq<Token>, more: seq<Token>, last: Last, open: nat)
    requires Walk(ts, last, open).Some? && Walk(ts, last, open).value != UnexpectedEnd
    ensures Walk(ts + more, last, open) == Walk(ts, last, open)
  {
    assert (ts + more)[0] == ts[0] && (ts + more)[1..] == ts[1..] + more;
    match After(ts[0], last, open)
    case Some((next, depth)) => ErrorStays(ts[1..], more, next, depth);
    case None =>
  }

  lemma {:induction false} CloseAll(last: Last, open: nat) returns (more: seq<Token>)
    requires last == Identifier || last == Exception || last == Close
    ensures Walk(more, last, open) == None
    decreases open
  {
    if open == 0 {
      more := [];
    } else {
      var after := CloseAll(Close, open - 1);
      more := [")"] + after;
      assert more[1..] == after;
    }
  }

  /** What is only unfinished can be finished: by an identifier where one is missing, and the missing parentheses. */
  lemma {:induction false} Finish(ts: seq<Token>, last: Last, open: nat) returns (more: seq<Token>)
    requires Walk(ts, last, open) == None || Walk(ts, last, open) == Some(UnexpectedEnd)
    ensures Walk(ts + more, last, open) == None
  {
    if ts == [] {
      if last == Nothing || last == WithWord {
        var after := CloseAll(if last == Nothing then Identifier else Exception, open);
        more := ["MIT"] + after;
        assert more[1..] == after;
      } else {
        more := CloseAll(last, open);
      }
      assert ts + more == more;
    } else {
      var (next, depth) := After(ts[0], last, open).value;
      more := Finish(ts[1..], next, depth);
      assert (ts + more)[0] == ts[0] && (ts + more)[1..] == ts[1..] + more;
    }
  }

  /**
   The parser stops at the first token that spoils everything: what it refuses
   only for its end starts some accepted expression, and what it refuses for
   any other reason starts none and is refused the same way whatever follows.
   */
  lemma RefusedAtFirstBadToken(ts: seq<Token>)
    ensures (exists more :: Parse(ts + more).Ok?) <==> Parse(ts).Ok? || Parse(ts) == Err(UnexpectedEnd)
    ensures Parse(ts).Err? && Parse(ts) != Err(UnexpectedEnd) ==> forall more :: Parse(ts + more) == Parse(ts)
  {
    ParseErrorIsFirst(ts);
    if Parse(ts).Ok? || Parse(ts) == Err(UnexpectedEnd) {
      var more := Finish(ts, Nothing, 0);
      ParseErrorIsFirst(ts + more);
    } else {
      forall more
        ensures Parse(ts + more) == Parse(ts)
      {
        ErrorStays(ts, more, Nothing, 0);
        ParseErrorIsFirst(ts + more);
      }
    }
  }
}
