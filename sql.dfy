/**
 * The parameterised SQL statements that db.py and api.py assemble, as token sequences.
 * A `%s` placeholder is a token of its own, so the number of placeholders in a statement
 * is a count of tokens and can be compared with the parameter list bound to it.
 */
module Sql {
  import opened Wrappers

  /** Literal SQL text, a `%s` placeholder, or an integer formatted into the text (an f-string). */
  datatype Token = Lit(text: string) | Placeholder | IntText(n: int)

  /** A value bound to a placeholder. */
  datatype Param = VectorParam(v: seq<real>) | TextParam(s: string) | IntParam(n: int)

  /** One entry of a `conditions` list, carrying the filter value bound to its placeholder. */
  datatype Clause =
    | BranchOrAll(value: string)  // (branch = %s OR branch = 'all')
    | YearOrAll(value: string)    // (year = %s OR year = 'all')
    | BranchIs(value: string)     // branch = %s
    | YearIs(value: string)       // year = %s

  function ClauseTokens(c: Clause): seq<Token> {
    match c
    case BranchOrAll(_) => [Lit("(branch = "), Placeholder, Lit(" OR branch = 'all')")]
    case YearOrAll(_) => [Lit("(year = "), Placeholder, Lit(" OR year = 'all')")]
    case BranchIs(_) => [Lit("branch = "), Placeholder]
    case YearIs(_) => [Lit("year = "), Placeholder]
  }

  /** The number of `%s` placeholders in a statement. */
  function Placeholders(sql: seq<Token>): nat {
    if sql == [] then 0 else (if sql[0] == Placeholder then 1 else 0) + Placeholders(sql[1..])
  }

  lemma {:induction false} PlaceholdersAppend(a: seq<Token>, b: seq<Token>)
    ensures Placeholders(a + b) == Placeholders(a) + Placeholders(b)
  {
    if a == [] {
      assert a + b == b;
    } else {
      assert (a + b)[0] == a[0];
      assert (a + b)[1..] == a[1..] + b;
      PlaceholdersAppend(a[1..], b);
    }
  }

  /** Each condition's text holds exactly one placeholder. */
  lemma ClausePlaceholders(c: Clause)
    ensures Placeholders(ClauseTokens(c)) == 1
  {
    var t := ClauseTokens(c);
    assert Placeholders(t[|t| - 1..]) == (if t[|t| - 1] == Placeholder then 1 else 0) by {
      assert t[|t| - 1..][1..] == [];
    }
    if |t| == 3 {
      assert t[1..][1..] == t[2..];
    }
  }

  /** `" AND ".join(conditions)`. */
  function JoinAnd(cs: seq<Clause>): seq<Token> {
    if cs == [] then []
    else if |cs| == 1 then ClauseTokens(cs[0])
    else ClauseTokens(cs[0]) + [Lit(" AND ")] + JoinAnd(cs[1..])
  }

  /** Every condition contributes exactly one placeholder to the joined text. */
  lemma {:induction false} JoinAndPlaceholders(cs: seq<Clause>)
    ensures Placeholders(JoinAnd(cs)) == |cs|
    ensures Lit(" WHERE ") !in JoinAnd(cs)
    ensures forall t :: t in JoinAnd(cs) ==> !t.IntText?
  {
    if |cs| > 1 {
      JoinAndPlaceholders(cs[1..]);
      var head := ClauseTokens(cs[0]) + [Lit(" AND ")];
      PlaceholdersAppend(head, JoinAnd(cs[1..]));
      PlaceholdersAppend(ClauseTokens(cs[0]), [Lit(" AND ")]);
      ClausePlaceholders(cs[0]);
      assert Placeholders([Lit(" AND ")]) == 0 by {
        assert [Lit(" AND ")][1..] == [];
      }
    } else if |cs| == 1 {
      ClausePlaceholders(cs[0]);
    }
  }

  /** `sql += " WHERE " + " AND ".join(conditions)` adds one placeholder per condition. */
  lemma WherePlaceholders(sql: seq<Token>, cs: seq<Clause>)
    ensures Placeholders(sql + [Lit(" WHERE ")] + JoinAnd(cs)) == Placeholders(sql) + |cs|
  {
    JoinAndPlaceholders(cs);
    PlaceholdersAppend(sql, [Lit(" WHERE ")]);
    assert Placeholders([Lit(" WHERE ")]) == 0 by {
      assert [Lit(" WHERE ")][1..] == [];
    }
    PlaceholdersAppend(sql + [Lit(" WHERE ")], JoinAnd(cs));
  }

  /** The parameters the conditions bind, in the order of their placeholders. */
  function BoundValues(cs: seq<Clause>): (ps: seq<Param>)
    ensures |ps| == |cs|
  {
    seq(|cs|, i requires 0 <= i < |cs| => TextParam(cs[i].value))
  }

  /** Whether a stored row's branch and year satisfy one condition, with SQL's NULL never equal to a value. */
  predicate Holds(c: Clause, branch: Option<string>, year: Option<string>) {
    match c
    case BranchOrAll(v) => branch == Some(v) || branch == Some("all")
    case YearOrAll(v) => year == Some(v) || year == Some("all")
    case BranchIs(v) => branch == Some(v)
    case YearIs(v) => year == Some(v)
  }

  /** The WHERE clause the conditions form: their conjunction (no conditions, no WHERE, every row). */
  predicate HoldsAll(cs: seq<Clause>, branch: Option<string>, year: Option<string>) {
    forall i :: 0 <= i < |cs| ==> Holds(cs[i], branch, year)
  }
}
