/**
 * The builder of the openFDA `search` parameter (`SearchQueryBuilder510k`):
 * a query is `name:value`, followed by `+name:value` for a disjunction or
 * `+AND+name:value` for a conjunction. The builder keeps the text built so
 * far and a flag saying whether a first field has been added; a ghost
 * sequence records the constraints the text was built from.
 */
module QueryBuilder {
  import opened Wrappers
  import opened Text

  const QueryFieldColon: char := ':'
  const LogicalOr: string := "+"
  const LogicalAnd: string := "AND"

  /** How a constraint is joined to the ones before it. */
  datatype Connective = Leading | Or | And

  datatype Constraint = Constraint(connective: Connective, name: string, value: string)

  /** The misuses the builder rejects (each a `ValueError` in the source). */
  datatype BuilderError = FirstFieldExists | NoFirstField | InvalidOperator(operator: string)

  /** `name:value` */
  function Field(name: string, value: string): string {
    name + [QueryFieldColon] + value
  }

  /** The text one constraint adds to the query. */
  function Segment(c: Constraint): string {
    match c.connective
    case Leading => Field(c.name, c.value)
    case Or => LogicalOr + Field(c.name, c.value)
    case And => LogicalOr + LogicalAnd + LogicalOr + Field(c.name, c.value)
  }

  /** The query text of a sequence of constraints, built left to right as the builder does. */
  function Render(cs: seq<Constraint>): string {
    if |cs| == 0 then "" else Render(cs[..|cs| - 1]) + Segment(cs[|cs| - 1])
  }

  /** Only the first constraint is leading; every later one carries an operator. */
  predicate WellFormed(cs: seq<Constraint>) {
    (|cs| > 0 ==> cs[0].connective == Leading) &&
    forall i :: 1 <= i < |cs| ==> cs[i].connective != Leading
  }

  lemma AndSegmentText(q: string, name: string, value: string)
    ensures q + Segment(Constraint(And, name, value)) == q + "+AND+" + name + ":" + value
  {
  }

  lemma OrSegmentText(q: string, name: string, value: string)
    ensures q + Segment(Constraint(Or, name, value)) == q + "+" + name + ":" + value
  {
  }

  class SearchQueryBuilder {
    var queryString: string
    var hasQueryField: bool
    ghost var constraints: seq<Constraint>

    ghost predicate Valid()
      reads this
    {
      WellFormed(constraints) &&
      queryString == Render(constraints) &&
      hasQueryField == (|constraints| > 0)
    }

    /** A fresh builder holds the empty query and no field. */
    constructor ()
      ensures Valid()
      ensures queryString == "" && !hasQueryField && constraints == []
    {
      queryString := "";
      hasQueryField := false;
      constraints := [];
    }

    /**
     * Starts the query with `name:value`. Fails, changing nothing, when a
     * field has already been added.
     */
    method AddFirstQueryField(name: string, value: string) returns (outcome: Outcome<BuilderError>)
      requires Valid()
      modifies this
      ensures Valid()
      ensures old(hasQueryField) ==>
                outcome == Fail(FirstFieldExists) &&
                queryString == old(queryString) && hasQueryField &&
                constraints == old(constraints)
      ensures !old(hasQueryField) ==>
                outcome == Pass &&
                queryString == name + ":" + value && hasQueryField &&
                constraints == [Constraint(Leading, name, value)]
    {
      if !hasQueryField {
        queryString := queryString + name + [QueryFieldColon] + value;
        hasQueryField := true;
        constraints := constraints + [Constraint(Leading, name, value)];
        assert constraints[..|constraints| - 1] == [];
        outcome := Pass;
      } else {
        outcome := Fail(FirstFieldExists);
      }
    }

    /**
     * Appends `+name:value` for the operator "+" or `+AND+name:value` for
     * the operator "AND". Fails, changing nothing, when there is no first
     * field yet or the operator is neither of the two.
     */
    method AddQueryField(name: string, value: string, operator: string) returns (outcome: Outcome<BuilderError>)
      requires Valid()
      modifies this
      ensures Valid()
      ensures hasQueryField == old(hasQueryField)
      ensures !old(hasQueryField) ==>
                outcome == Fail(NoFirstField) &&
                queryString == old(queryString) && constraints == old(constraints)
      ensures old(hasQueryField) && operator == "AND" ==>
                outcome == Pass &&
                queryString == old(queryString) + "+AND+" + name + ":" + value &&
                constraints == old(constraints) + [Constraint(And, name, value)]
      ensures old(hasQueryField) && operator == "+" ==>
                outcome == Pass &&
                queryString == old(queryString) + "+" + name + ":" + value &&
                constraints == old(constraints) + [Constraint(Or, name, value)]
      ensures old(hasQueryField) && operator != "AND" && operator != "+" ==>
                outcome == Fail(InvalidOperator(operator)) &&
                queryString == old(queryString) && constraints == old(constraints)
    {
      if !hasQueryField {
        outcome := Fail(NoFirstField);
        return;
      }
      var c: Constraint;
      if operator == LogicalAnd {
        c := Constraint(And, name, value);
        AndSegmentText(queryString, name, value);
      } else if operator == LogicalOr {
        c := Constraint(Or, name, value);
        OrSegmentText(queryString, name, value);
      } else {
        outcome := Fail(InvalidOperator(operator));
        return;
      }
      queryString := queryString + Segment(c);
      constraints := constraints + [c];
      assert constraints[..|constraints| - 1] == old(constraints);
      outcome := Pass;
    }

    /** The query text built so far. */
    method GetSearchQueryString() returns (q: string)
      requires Valid()
      ensures q == Render(constraints)
      ensures |constraints| == 0 ==> q == ""
    {
      q := queryString;
    }
  }

  // -------------------------------------------------------------------------
  // Reading a query back

  /** The `+`-separated tokens of one constraint. */
  function SegmentTokens(c: Constraint): seq<string> {
    if c.connective == And then [LogicalAnd, Field(c.name, c.value)] else [Field(c.name, c.value)]
  }

  function Tokens(cs: seq<Constraint>): seq<string> {
    if |cs| == 0 then [] else SegmentTokens(cs[0]) + Tokens(cs[1..])
  }

  /** Names and values the query syntax can carry unambiguously. */
  predicate Plain(cs: seq<Constraint>) {
    forall i :: 0 <= i < |cs| ==>
      '+' !in cs[i].name && QueryFieldColon !in cs[i].name && '+' !in cs[i].value
  }

  /** A `name:value` token, cut at its first colon. */
  function ParseField(token: string): Option<(string, string)> {
    match SplitFirst(token, QueryFieldColon)
    case NoSeparator => None
    case Halves(name, value) => Some((name, value))
  }

  /** The constraints after the first: `AND` marks a conjunction, any other token a disjunction. */
  function ParseRest(ts: seq<string>): Option<seq<Constraint>>
    decreases |ts|
  {
    if |ts| == 0 then Some([])
    else if ts[0] == LogicalAnd then
      if |ts| < 2 then None
      else
        match (ParseField(ts[1]), ParseRest(ts[2..]))
        case (Some(f), Some(rest)) => Some([Constraint(And, f.0, f.1)] + rest)
        case _ => None
    else
      match (ParseField(ts[0]), ParseRest(ts[1..]))
      case (Some(f), Some(rest)) => Some([Constraint(Or, f.0, f.1)] + rest)
      case _ => None
  }

  /** The constraints a query text was built from, if it is a well-formed query. */
  function ParseQuery(q: string): Option<seq<Constraint>> {
    var ts := Split(q, '+');
    match (ParseField(ts[0]), ParseRest(ts[1..]))
    case (Some(f), Some(rest)) => Some([Constraint(Leading, f.0, f.1)] + rest)
    case _ => None
  }

  lemma ParseFieldOf(name: string, value: string)
    requires QueryFieldColon !in name
    ensures ParseField(Field(name, value)) == Some((name, value))
  {
    SplitFirstAt(name, QueryFieldColon, value);
  }

  lemma {:induction false} TokensAppend(cs: seq<Constraint>, c: Constraint)
    ensures Tokens(cs + [c]) == Tokens(cs) + SegmentTokens(c)
  {
    if |cs| > 0 {
      assert (cs + [c])[1..] == cs[1..] + [c];
      TokensAppend(cs[1..], c);
    } else {
      assert Tokens([c]) == SegmentTokens(c) + Tokens([]);
    }
  }

  lemma RenderSnoc(cs: seq<Constraint>, c: Constraint)
    ensures Render(cs + [c]) == Render(cs) + Segment(c)
  {
    assert (cs + [c])[..|cs|] == cs;
  }

  lemma {:induction false} JoinTwoMore(ts: seq<string>, a: string, f: string, sep: char)
    requires |ts| >= 1
    ensures Join(ts + [a] + [f], sep) == Join(ts, sep) + ([sep] + a + [sep] + f)
  {
    JoinAppend(ts, a, sep);
    JoinAppend(ts + [a], f, sep);
    var j := Join(ts, sep);
    assert j + [sep] + a + [sep] + f == j + ([sep] + a + [sep] + f);
  }

  /** Appending the tokens of a conjunction to a join appends its segment. */
  lemma JoinAndSegment(ts: seq<string>, c: Constraint)
    requires |ts| >= 1 && c.connective == And
    ensures Join(ts + SegmentTokens(c), '+') == Join(ts, '+') + Segment(c)
  {
    var f := Field(c.name, c.value);
    assert ts + SegmentTokens(c) == ts + [LogicalAnd] + [f];
    JoinTwoMore(ts, LogicalAnd, f, '+');
  }

  /** Appending the token of a disjunction to a join appends its segment. */
  lemma JoinOrSegment(ts: seq<string>, c: Constraint)
    requires |ts| >= 1 && c.connective == Or
    ensures Join(ts + SegmentTokens(c), '+') == Join(ts, '+') + Segment(c)
  {
    JoinAppend(ts, Field(c.name, c.value), '+');
  }

  lemma TokensNonEmpty(cs: seq<Constraint>)
    requires |cs| >= 1
    ensures |Tokens(cs)| >= 1
  {
    assert Tokens(cs) == SegmentTokens(cs[0]) + Tokens(cs[1..]);
  }

  /** The builder's left-to-right text is the join of the tokens with `+`. */
  lemma {:induction false} RenderIsJoin(cs: seq<Constraint>)
    requires |cs| >= 1 && WellFormed(cs)
    ensures Render(cs) == Join(Tokens(cs), '+')
    decreases |cs|
  {
    var n := |cs|;
    if n == 1 {
      assert Tokens(cs) == [Field(cs[0].name, cs[0].value)] + Tokens(cs[1..]);
    } else {
      var init, c := cs[..n - 1], cs[n - 1];
      assert cs == init + [c];
      assert WellFormed(init);
      RenderIsJoin(init);
      RenderSnoc(init, c);
      TokensAppend(init, c);
      TokensNonEmpty(init);
      if c.connective == And {
        JoinAndSegment(Tokens(init), c);
      } else {
        JoinOrSegment(Tokens(init), c);
      }
    }
  }

  lemma {:induction false} ParseRestTokens(cs: seq<Constraint>)
    requires Plain(cs)
    requires forall i :: 0 <= i < |cs| ==> cs[i].connective != Leading
    ensures ParseRest(Tokens(cs)) == Some(cs)
    decreases |cs|
  {
    if |cs| > 0 {
      var c := cs[0];
      var f := Field(c.name, c.value);
      var ts := Tokens(cs);
      ParseFieldOf(c.name, c.value);
      ParseRestTokens(cs[1..]);
      assert f[|c.name|] == QueryFieldColon;
      assert QueryFieldColon !in LogicalAnd;
      assert QueryFieldColon in f;
      if c.connective == And {
        assert ts[2..] == Tokens(cs[1..]);
      } else {
        assert ts[1..] == Tokens(cs[1..]);
      }
      assert [c] + cs[1..] == cs;
    }
  }

  /** Every piece of a query's tokens is free of `+`. */
  lemma {:induction false} TokensArePlain(cs: seq<Constraint>)
    requires Plain(cs)
    ensures forall i :: 0 <= i < |Tokens(cs)| ==> '+' !in Tokens(cs)[i]
    decreases |cs|
  {
    if |cs| > 0 {
      TokensArePlain(cs[1..]);
      var c := cs[0];
      var f := Field(c.name, c.value);
      assert '+' !in f by {
        assert f == c.name + [QueryFieldColon] + c.value;
      }
    }
  }

  /**
   * A query built from plain constraints reads back as exactly those
   * constraints: the builder's text determines what was added, in order,
   * with which operators.
   */
  lemma ParseRender(cs: seq<Constraint>)
    requires |cs| >= 1 && WellFormed(cs) && Plain(cs)
    ensures ParseQuery(Render(cs)) == Some(cs)
  {
    RenderIsJoin(cs);
    JoinedTokensParse(cs);
  }

  lemma JoinedTokensParse(cs: seq<Constraint>)
    requires |cs| >= 1 && WellFormed(cs) && Plain(cs)
    ensures ParseQuery(Join(Tokens(cs), '+')) == Some(cs)
  {
    TokensArePlain(cs);
    var ts := Tokens(cs);
    assert ts == [Field(cs[0].name, cs[0].value)] + Tokens(cs[1..]);
    SplitJoin(ts, '+');
    ParseFieldOf(cs[0].name, cs[0].value);
    ParseRestTokens(cs[1..]);
    assert ts[1..] == Tokens(cs[1..]);
    assert [cs[0]] + cs[1..] == cs;
  }

  /** The query texts of one field, then of a disjunction added to it. */
  lemma RenderExamples()
    ensures Render([Constraint(Leading, "decision_date", "2019-12-08")]) == "decision_date:2019-12-08"
    ensures Render([Constraint(Leading, "decision_date", "2019-12-08"), Constraint(Or, "k_number", "K1")])
            == "decision_date:2019-12-08+k_number:K1"
  {
    var one := [Constraint(Leading, "decision_date", "2019-12-08")];
    assert one[..0] == [];
    assert Render(one) == "decision_date:2019-12-08";
    var two := one + [Constraint(Or, "k_number", "K1")];
    assert two[..1] == one;
    assert Segment(two[1]) == "+k_number:K1";
  }
}
