/**
 SPDX licence expressions: the grammar as trees, and recursive descent over it.
 OR binds weaker than AND, AND weaker than WITH, and WITH follows a single
 licence identifier (Annex D of the SPDX Specification 2.3).
 */
module SpdxGrammar {
  import opened Basics

  type Token = string

  const KEYWORDS: set<Token> := {"AND", "OR", "WITH", "(", ")"}

  predicate IsIdentifier(t: Token) {
    t !in KEYWORDS
  }

  // ---------------------------------------------------------------------
  // The grammar.

  datatype OrExpr = OneAnd(only: AndExpr) | OrMore(first: AndExpr, more: OrExpr)
  datatype AndExpr = OneWith(only: WithExpr) | AndMore(first: WithExpr, more: AndExpr)
  datatype WithExpr = Plain(primary: Primary) | With(license: Token, exception: Token)
  datatype Primary = License(id: Token) | Group(inner: OrExpr)

  predicate OrFormed(e: OrExpr) {
    match e
    case OneAnd(a) => AndFormed(a)
    case OrMore(a, more) => AndFormed(a) && OrFormed(more)
  }

  predicate AndFormed(e: AndExpr) {
    match e
    case OneWith(w) => WithFormed(w)
    case AndMore(w, more) => WithFormed(w) && AndFormed(more)
  }

  predicate WithFormed(e: WithExpr) {
    match e
    case Plain(p) => PrimaryFormed(p)
    case With(license, exception) => IsIdentifier(license) && IsIdentifier(exception)
  }

  predicate PrimaryFormed(e: Primary) {
    match e
    case License(id) => IsIdentifier(id)
    case Group(inner) => OrFormed(inner)
  }

  /** The tokens a tree derives. */
  function OrYield(e: OrExpr): (ts: seq<Token>)
    ensures ts != []
  {
    match e
    case OneAnd(a) => AndYield(a)
    case OrMore(a, more) => AndYield(a) + ["OR"] + OrYield(more)
  }

  function AndYield(e: AndExpr): (ts: seq<Token>)
    ensures ts != []
  {
    match e
    case OneWith(w) => WithYield(w)
    case AndMore(w, more) => WithYield(w) + ["AND"] + AndYield(more)
  }

  function WithYield(e: WithExpr): (ts: seq<Token>)
    ensures ts != []
  {
    match e
    case Plain(p) => PrimaryYield(p)
    case With(license, exception) => [license, "WITH", exception]
  }

  function PrimaryYield(e: Primary): (ts: seq<Token>)
    ensures ts != []
  {
    match e
    case License(id) => [id]
    case Group(inner) => ["("] + OrYield(inner) + [")"]
  }

  /** Licence identifiers, left to right. */
  function OrLicenses(e: OrExpr): seq<Token> {
    match e
    case OneAnd(a) => AndLicenses(a)
    case OrMore(a, more) => AndLicenses(a) + OrLicenses(more)
  }

  function AndLicenses(e: AndExpr): seq<Token> {
    match e
    case OneWith(w) => WithLicenses(w)
    case AndMore(w, more) => WithLicenses(w) + AndLicenses(more)
  }

  function WithLicenses(e: WithExpr): seq<Token> {
    match e
    case Plain(p) => PrimaryLicenses(p)
    case With(license, _) => [license]
  }

  function PrimaryLicenses(e: Primary): seq<Token> {
    match e
    case License(id) => [id]
    case Group(inner) => OrLicenses(inner)
  }

  /** Exception identifiers, left to right. */
  function OrExceptions(e: OrExpr): seq<Token> {
    match e
    case OneAnd(a) => AndExceptions(a)
    case OrMore(a, more) => AndExceptions(a) + OrExceptions(more)
  }

  function AndExceptions(e: AndExpr): seq<Token> {
    match e
    case OneWith(w) => WithExceptions(w)
    case AndMore(w, more) => WithExceptions(w) + AndExceptions(more)
  }

  function WithExceptions(e: WithExpr): seq<Token> {
    match e
    case Plain(p) => PrimaryExceptions(p)
    case With(_, exception) => [exception]
  }

  function PrimaryExceptions(e: Primary): seq<Token> {
    match e
    case License(_) => []
    case Group(inner) => OrExceptions(inner)
  }

  // ---------------------------------------------------------------------
  // Recursive descent.

  datatype ParseError =
    | EmptyExpression
    | UnexpectedCharacter(column: nat)
    | UnexpectedEnd
    | Expected(wanted: Token, got: Token)
    | NotALicense(got: Token)
    | NotAnException(got: Token)
    | WithAfterGroup
    | TrailingToken(got: Token)

  /** A tree and the tokens left after it. */
  datatype Parsed<T> = Parsed(tree: T, rest: seq<Token>)

  predicate Next(ts: seq<Token>, t: Token) {
    ts != [] && ts[0] == t
  }

  function ParseOr(ts: seq<Token>): (r: Result<Parsed<OrExpr>, ParseError>)
    ensures r.Ok? ==> |r.value.rest| < |ts|
    decreases |ts|, 3
  {
    match ParseAnd(ts)
    case Err(e) => Err(e)
    case Ok(Parsed(a, rest)) =>
      if Next(rest, "OR") then
        match ParseOr(rest[1..])
        case Err(e) => Err(e)
        case Ok(Parsed(more, rest')) => Ok(Parsed(OrMore(a, more), rest'))
      else Ok(Parsed(OneAnd(a), rest))
  }

  function ParseAnd(ts: seq<Token>): (r: Result<Parsed<AndExpr>, ParseError>)
    ensures r.Ok? ==> |r.value.rest| < |ts|
    decreases |ts|, 2
  {
    match ParseWith(ts)
    case Err(e) => Err(e)
    case Ok(Parsed(w, rest)) =>
      if Next(rest, "AND") then
        match ParseAnd(rest[1..])
        case Err(e) => Err(e)
        case Ok(Parsed(more, rest')) => Ok(Parsed(AndMore(w, more), rest'))
      else Ok(Parsed(OneWith(w), rest))
  }

  function ParseWith(ts: seq<Token>): (r: Result<Parsed<WithExpr>, ParseError>)
    ensures r.Ok? ==> |r.value.rest| < |ts|
    decreases |ts|, 1
  {
    match ParsePrimary(ts)
    case Err(e) => Err(e)
    case Ok(Parsed(p, rest)) =>
      if !Next(rest, "WITH") then Ok(Parsed(Plain(p), rest))
      else if !p.License? then Err(WithAfterGroup)
      else if |rest| < 2 then Err(UnexpectedEnd)
      else if !IsIdentifier(rest[1]) then Err(NotAnException(rest[1]))
      else Ok(Parsed(With(p.id, rest[1]), rest[2..]))
  }

  function ParsePrimary(ts: seq<Token>): (r: Result<Parsed<Primary>, ParseError>)
    ensures r.Ok? ==> |r.value.rest| < |ts|
    decreases |ts|, 0
  {
    if ts == [] then Err(UnexpectedEnd)
    else if ts[0] == "(" then
      match ParseOr(ts[1..])
      case Err(e) => Err(e)
      case Ok(Parsed(inner, rest)) =>
        if rest == [] then Err(UnexpectedEnd)
        else if rest[0] != ")" then Err(Expected(")", rest[0]))
        else Ok(Parsed(Group(inner), rest[1..]))
    else if !IsIdentifier(ts[0]) then Err(NotALicense(ts[0]))
    else Ok(Parsed(License(ts[0]), ts[1..]))
  }

  /** The whole token sequence. */
  function Parse(ts: seq<Token>): Result<OrExpr, ParseError> {
    match ParseOr(ts)
    case Err(e) => Err(e)
    case Ok(Parsed(e, rest)) => if rest == [] then Ok(e) else Err(TrailingToken(rest[0]))
  }

  // ---------------------------------------------------------------------
  // Soundness: what is parsed derives what was read.

  lemma Reassociate(a: seq<Token>, b: seq<Token>, c: seq<Token>, d: seq<Token>)
    ensures a + b + c + d == a + (b + (c + d))
  {
  }

  lemma {:induction false} OrSound(ts: seq<Token>)
    ensures var r := ParseOr(ts);
            r.Ok? ==> OrFormed(r.value.tree) && OrYield(r.value.tree) + r.value.rest == ts
    decreases |ts|, 3
  {
    AndSound(ts);
    var first := ParseAnd(ts);
    if first.Ok? && Next(first.value.rest, "OR") {
      var rest := first.value.rest[1..];
      OrSound(rest);
      var more := ParseOr(rest);
      assert first.value.rest == ["OR"] + rest;
      if more.Ok? {
        Reassociate(AndYield(first.value.tree), ["OR"], OrYield(more.value.tree), more.value.rest);
      }
    }
  }

  lemma {:induction false} AndSound(ts: seq<Token>)
    ensures var r := ParseAnd(ts);
            r.Ok? ==> AndFormed(r.value.tree) && AndYield(r.value.tree) + r.value.rest == ts
    decreases |ts|, 2
  {
    WithSound(ts);
    var first := ParseWith(ts);
    if first.Ok? && Next(first.value.rest, "AND") {
      var rest := first.value.rest[1..];
      AndSound(rest);
      var more := ParseAnd(rest);
      assert first.value.rest == ["AND"] + rest;
      if more.Ok? {
        Reassociate(WithYield(first.value.tree), ["AND"], AndYield(more.value.tree), more.value.rest);
      }
    }
  }

  lemma {:induction false} WithSound(ts: seq<Token>)
    ensures var r := ParseWith(ts);
            r.Ok? ==> WithFormed(r.value.tree) && WithYield(r.value.tree) + r.value.rest == ts
    decreases |ts|, 1
  {
    PrimarySound(ts);
  }

  lemma GroupReadsBack(ts: seq<Token>, open: Token, inner: seq<Token>, close: Token, rest: seq<Token>)
    requires Next(ts, open) && inner + rest == ts[1..] && Next(rest, close)
    ensures [open] + inner + [close] + rest[1..] == ts
  {
    assert rest == [close] + rest[1..];
    assert ts == [open] + ts[1..];
  }

  lemma {:induction false} PrimarySound(ts: seq<Token>)
    ensures var r := ParsePrimary(ts);
            r.Ok? ==> PrimaryFormed(r.value.tree) && PrimaryYield(r.value.tree) + r.value.rest == ts
    decreases |ts|, 0
  {
    if ts != [] && ts[0] == "(" {
      OrSound(ts[1..]);
      var inner := ParseOr(ts[1..]);
      if inner.Ok? && Next(inner.value.rest, ")") {
        GroupReadsBack(ts, "(", OrYield(inner.value.tree), ")", inner.value.rest);
      }
    }
  }

  // ---------------------------------------------------------------------
  // Completeness: every tree is found, whatever follows that cannot extend it.

  lemma {:induction false} OrComplete(e: OrExpr, rest: seq<Token>)
    requires OrFormed(e) && !Next(rest, "OR") && !Next(rest, "AND") && !Next(rest, "WITH")
    ensures ParseOr(OrYield(e) + rest) == Ok(Parsed(e, rest))
    decreases e
  {
    match e
    case OneAnd(a) => AndComplete(a, rest);
    case OrMore(a, more) =>
      var after := ["OR"] + (OrYield(more) + rest);
      assert OrYield(e) + rest == AndYield(a) + after;
      AndComplete(a, after);
      assert after[1..] == OrYield(more) + rest;
      OrComplete(more, rest);
  }

  lemma {:induction false} AndComplete(e: AndExpr, rest: seq<Token>)
    requires AndFormed(e) && !Next(rest, "AND") && !Next(rest, "WITH")
    ensures ParseAnd(AndYield(e) + rest) == Ok(Parsed(e, rest))
    decreases e
  {
    match e
    case OneWith(w) => WithComplete(w, rest);
    case AndMore(w, more) =>
      var after := ["AND"] + (AndYield(more) + rest);
      assert AndYield(e) + rest == WithYield(w) + after;
      WithComplete(w, after);
      assert after[1..] == AndYield(more) + rest;
      AndComplete(more, rest);
  }

  lemma {:induction false} WithComplete(e: WithExpr, rest: seq<Token>)
    requires WithFormed(e) && !Next(rest, "WITH")
    ensures ParseWith(WithYield(e) + rest) == Ok(Parsed(e, rest))
    decreases e
  {
    match e
    case Plain(p) => PrimaryComplete(p, rest);
    case With(license, exception) =>
      var after := ["WITH", exception] + rest;
      assert WithYield(e) + rest == [license] + after;
      assert ([license] + after)[1..] == after && after[2..] == rest;
  }

  lemma {:induction false} PrimaryComplete(e: Primary, rest: seq<Token>)
    requires PrimaryFormed(e)
    ensures ParsePrimary(PrimaryYield(e) + rest) == Ok(Parsed(e, rest))
    decreases e
  {
    match e
    case License(id) =>
      assert ([id] + rest)[1..] == rest;
    case Group(inner) =>
      var after := [")"] + rest;
      var ts := PrimaryYield(e) + rest;
      assert ts[1..] == OrYield(inner) + after;
      OrComplete(inner, after);
      assert after[1..] == rest;
  }

  /** The parser accepts exactly the language of the grammar, and returns the one tree there is. */
  lemma ParserIsTheGrammar(ts: seq<Token>, e: OrExpr)
    ensures Parse(ts) == Ok(e) <==> OrFormed(e) && OrYield(e) == ts
  {
    OrSound(ts);
    if OrFormed(e) {
      OrComplete(e, []);
      assert OrYield(e) + [] == OrYield(e);
    }
  }

  lemma AcceptedIsDerivable(ts: seq<Token>)
    ensures Parse(ts).Ok? <==> exists e :: OrFormed(e) && OrYield(e) == ts
  {
    if Parse(ts).Ok? {
      ParserIsTheGrammar(ts, Parse(ts).value);
    }
    forall e | OrFormed(e) && OrYield(e) == ts
      ensures Parse(ts).Ok?
    {
      ParserIsTheGrammar(ts, e);
    }
  }

  /** No token sequence has two readings. */
  lemma GrammarIsUnambiguous(e1: OrExpr, e2: OrExpr)
    requires OrFormed(e1) && OrFormed(e2) && OrYield(e1) == OrYield(e2)
    ensures e1 == e2
  {
    ParserIsTheGrammar(OrYield(e1), e1);
    ParserIsTheGrammar(OrYield(e1), e2);
  }

  // ---------------------------------------------------------------------
  // The identifiers of a tree are among its tokens, and no keywords if it is well formed.

  lemma {:induction false} OrIdentifiers(e: OrExpr, t: Token)
    ensures t in OrLicenses(e) || t in OrExceptions(e) ==> t in OrYield(e) && (OrFormed(e) ==> IsIdentifier(t))
  {
    match e
    case OneAnd(a) => AndIdentifiers(a, t);
    case OrMore(a, more) =>
      AndIdentifiers(a, t);
      OrIdentifiers(more, t);
  }

  lemma {:induction false} AndIdentifiers(e: AndExpr, t: Token)
    ensures t in AndLicenses(e) || t in AndExceptions(e) ==> t in AndYield(e) && (AndFormed(e) ==> IsIdentifier(t))
  {
    match e
    case OneWith(w) => WithIdentifiers(w, t);
    case AndMore(w, more) =>
      WithIdentifiers(w, t);
      AndIdentifiers(more, t);
  }

  lemma {:induction false} WithIdentifiers(e: WithExpr, t: Token)
    ensures t in WithLicenses(e) || t in WithExceptions(e) ==> t in WithYield(e) && (WithFormed(e) ==> IsIdentifier(t))
  {
    match e
    case Plain(p) => PrimaryIdentifiers(p, t);
    case With(license, exception) => assert WithYield(e)[0] == license && WithYield(e)[2] == exception;
  }

  lemma {:induction false} PrimaryIdentifiers(e: Primary, t: Token)
    ensures t in PrimaryLicenses(e) || t in PrimaryExceptions(e) ==>
              t in PrimaryYield(e) && (PrimaryFormed(e) ==> IsIdentifier(t))
  {
    match e
    case License(id) =>
    case Group(inner) =>
      OrIdentifiers(inner, t);
      assert t in OrYield(inner) ==> t in ["("] + OrYield(inner) + [")"];
  }

  // ---------------------------------------------------------------------
  // First occurrences.

  function Distinct<T(==)>(xs: seq<T>): seq<T> {
    if xs == [] then []
    else
      var before := Distinct(xs[..|xs| - 1]);
      if xs[|xs| - 1] in before then before else before + [xs[|xs| - 1]]
  }

  /** Where an element first occurs. */
  function FirstIndex<T(==)>(xs: seq<T>, x: T): (i: nat)
    requires x in xs
    ensures i < |xs| && xs[i] == x && forall k :: 0 <= k < i ==> xs[k] != x
  {
    if xs[0] == x then 0 else 1 + FirstIndex(xs[1..], x)
  }

  /** The same elements, once each, in the order in which they first occur. */
  lemma {:induction false} DistinctIsFirstOccurrences<T>(xs: seq<T>)
    ensures forall x :: x in Distinct(xs) <==> x in xs
    ensures forall i, j :: 0 <= i < j < |Distinct(xs)| ==>
              FirstIndex(xs, Distinct(xs)[i]) < FirstIndex(xs, Distinct(xs)[j])
  {
    if xs != [] {
      var init, last := xs[..|xs| - 1], xs[|xs| - 1];
      var before := Distinct(init);
      DistinctIsFirstOccurrences(init);
      assert xs == init + [last];
      assert forall x :: x in init ==> FirstIndex(xs, x) == FirstIndex(init, x) by {
        forall x | x in init
          ensures FirstIndex(xs, x) == FirstIndex(init, x)
        {
          assert xs[FirstIndex(init, x)] == x;
        }
      }
      assert forall i :: 0 <= i < |before| ==> before[i] in before;
      if last !in before {
        assert last !in init;
        assert FirstIndex(xs, last) == |init|;
      }
    }
  }
}
