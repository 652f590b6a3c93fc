/**
 The WHERE clause generated for a record delete, as SQL tokens, and what SQL makes of it: a parser
 with SQL's precedence and evaluation in three-valued logic.
 */
module WhereClause {
  import opened Basics

  type Value = int

  /** The grouping type as SQL reads it; only AND and OR connect conditions. */
  datatype Grouping = AND | OR | Other(word: string)

  /** The operator is carried by the message; both generators always compare with `=`. */
  datatype Predicate = Predicate(operator: string, column: string, value: Option<Value>)

  datatype Group = Group(grouping: Grouping, predicates: seq<Predicate>)

  datatype Token = LParen | RParen | Ident(name: string) | Equals | Param(n: nat) | KeyAnd | KeyOr | Word(word: string)

  function Connective(g: Grouping): Token {
    match g
    case AND => KeyAnd
    case OR => KeyOr
    case Other(w) => Word(w)
  }

  // ---------------------------------------------------------------- what is generated

  function PredicateTokens(p: Predicate, counter: nat): seq<Token> {
    [Ident(p.column), Equals, Param(counter)]
  }

  /** The predicates from the second on, each after its connective. */
  function TailTokens(c: Token, ps: seq<Predicate>, counter: nat): seq<Token> {
    if ps == [] then [] else [c] + PredicateTokens(ps[0], counter) + TailTokens(c, ps[1..], counter + 1)
  }

  function GroupTokens(g: Group, counter: nat): seq<Token>
    requires g.predicates != []
  {
    [LParen] + PredicateTokens(g.predicates[0], counter) +
    TailTokens(Connective(g.grouping), g.predicates[1..], counter + 1) + [RParen]
  }

  /** Empty groups are skipped; every other group is followed by AND unless it is the last of all. */
  function WhereTokens(groups: seq<Group>, counter: nat): seq<Token> {
    if groups == [] then []
    else if groups[0].predicates == [] then WhereTokens(groups[1..], counter)
    else
      GroupTokens(groups[0], counter) + (if |groups| > 1 then [KeyAnd] else []) +
      WhereTokens(groups[1..], counter + |groups[0].predicates|)
  }

  function GroupValues(g: Group): seq<Option<Value>> {
    seq(|g.predicates|, i requires 0 <= i < |g.predicates| => g.predicates[i].value)
  }

  /** The parameters, in placeholder order. */
  function Values(groups: seq<Group>): seq<Option<Value>> {
    if groups == [] then [] else GroupValues(groups[0]) + Values(groups[1..])
  }

  function CountPredicates(groups: seq<Group>): nat {
    if groups == [] then 0 else |groups[0].predicates| + CountPredicates(groups[1..])
  }

  // ---------------------------------------------------------------- SQL: parsing

  datatype Expr = Compare(column: string, param: nat) | Both(l: Expr, r: Expr) | Either(l: Expr, r: Expr)

  datatype Parsed = Fail | Done(e: Expr, rest: seq<Token>)

  /** column = $n, or a parenthesised condition. */
  function ParsePrimary(ts: seq<Token>): (r: Parsed)
    ensures r.Done? ==> |r.rest| < |ts|
    decreases |ts|, 0
  {
    if |ts| >= 3 && ts[0].Ident? && ts[1].Equals? && ts[2].Param? then Done(Compare(ts[0].name, ts[2].n), ts[3..])
    else if ts != [] && ts[0].LParen? then
      match ParseOr(ts[1..])
      case Done(e, rest) => if rest != [] && rest[0].RParen? then Done(e, rest[1..]) else Fail
      case Fail => Fail
    else Fail
  }

  /** AND binds tighter than OR. */
  function ParseAnd(ts: seq<Token>): (r: Parsed)
    ensures r.Done? ==> |r.rest| < |ts|
    decreases |ts|, 1
  {
    match ParsePrimary(ts)
    case Done(e, rest) => AndTail(e, rest)
    case Fail => Fail
  }

  function AndTail(e: Expr, ts: seq<Token>): (r: Parsed)
    ensures r.Done? ==> |r.rest| <= |ts|
    decreases |ts|, 0
  {
    if ts != [] && ts[0].KeyAnd? then
      match ParsePrimary(ts[1..])
      case Done(e2, rest) => AndTail(Both(e, e2), rest)
      case Fail => Fail
    else Done(e, ts)
  }

  function ParseOr(ts: seq<Token>): (r: Parsed)
    ensures r.Done? ==> |r.rest| < |ts|
    decreases |ts|, 2
  {
    match ParseAnd(ts)
    case Done(e, rest) => OrTail(e, rest)
    case Fail => Fail
  }

  function OrTail(e: Expr, ts: seq<Token>): (r: Parsed)
    ensures r.Done? ==> |r.rest| <= |ts|
    decreases |ts|, 0
  {
    if ts != [] && ts[0].KeyOr? then
      match ParseAnd(ts[1..])
      case Done(e2, rest) => OrTail(Either(e, e2), rest)
      case Fail => Fail
    else Done(e, ts)
  }

  /** The condition a token list spells, if it is one. */
  function ParseWhere(ts: seq<Token>): Option<Expr> {
    match ParseOr(ts)
    case Done(e, rest) => if rest == [] then Some(e) else None
    case Fail => None
  }

  // ---------------------------------------------------------------- SQL: evaluation

  datatype Tri = Yes | No | Unknown

  /** A missing cell is NULL. */
  type Cells = map<string, Value>

  function And3(a: Tri, b: Tri): Tri {
    if a == No || b == No then No else if a == Yes && b == Yes then Yes else Unknown
  }

  function Or3(a: Tri, b: Tri): Tri {
    if a == Yes || b == Yes then Yes else if a == No && b == No then No else Unknown
  }

  /** Placeholder $n stands for parameter number n, counted from one. */
  function Eval(e: Expr, row: Cells, params: seq<Option<Value>>): Tri {
    match e
    case Compare(c, n) =>
      if c in row && 1 <= n <= |params| && params[n - 1].Some? then
        if row[c] == params[n - 1].value then Yes else No
      else Unknown
    case Both(l, r) => And3(Eval(l, row, params), Eval(r, row, params))
    case Either(l, r) => Or3(Eval(l, row, params), Eval(r, row, params))
  }

  // ---------------------------------------------------------------- what is meant

  predicate PredicateHolds(p: Predicate, row: Cells) {
    p.column in row && p.value.Some? && row[p.column] == p.value.value
  }

  /** All predicates of an AND group, some predicate of an OR group; a single predicate needs no connective. */
  predicate GroupHolds(g: Group, row: Cells) {
    if g.grouping == OR then exists i :: 0 <= i < |g.predicates| && PredicateHolds(g.predicates[i], row)
    else forall i :: 0 <= i < |g.predicates| ==> PredicateHolds(g.predicates[i], row)
  }

  predicate AllGroupsHold(groups: seq<Group>, row: Cells) {
    forall i :: 0 <= i < |groups| && groups[i].predicates != [] ==> GroupHolds(groups[i], row)
  }

  predicate GroupOk(g: Group) {
    |g.predicates| <= 1 || !g.grouping.Other?
  }

  /** What a caller can check: the last group is not empty, and only AND or OR connect predicates. */
  predicate Spellable(groups: seq<Group>) {
    groups != [] && groups[|groups| - 1].predicates != [] && forall i :: 0 <= i < |groups| ==> GroupOk(groups[i])
  }

  // ---------------------------------------------------------------- parsing what is generated

  function Fold(g: Grouping, e: Expr, ps: seq<Predicate>, counter: nat): Expr
    decreases ps
  {
    if ps == [] then e
    else
      var p := Compare(ps[0].column, counter);
      Fold(g, if g == OR then Either(e, p) else Both(e, p), ps[1..], counter + 1)
  }

  function GroupExpr(g: Group, counter: nat): Expr
    requires g.predicates != []
  {
    Fold(g.grouping, Compare(g.predicates[0].column, counter), g.predicates[1..], counter + 1)
  }

  /** The groups from here on, joined to what has been read. */
  function FoldGroups(e: Expr, groups: seq<Group>, counter: nat): Expr
    decreases groups
  {
    if groups == [] then e
    else if groups[0].predicates == [] then FoldGroups(e, groups[1..], counter)
    else FoldGroups(Both(e, GroupExpr(groups[0], counter)), groups[1..], counter + |groups[0].predicates|)
  }

  function WhereExpr(groups: seq<Group>, counter: nat): Expr
    requires groups != [] && groups[|groups| - 1].predicates != []
  {
    if groups[0].predicates == [] then WhereExpr(groups[1..], counter)
    else FoldGroups(GroupExpr(groups[0], counter), groups[1..], counter + |groups[0].predicates|)
  }

  lemma PrimaryOfPredicate(p: Predicate, counter: nat, rest: seq<Token>)
    ensures ParsePrimary(PredicateTokens(p, counter) + rest) == Done(Compare(p.column, counter), rest)
  {
    assert (PredicateTokens(p, counter) + rest)[3..] == rest;
  }

  lemma {:induction false} AndTailOfPredicates(e: Expr, ps: seq<Predicate>, counter: nat, rest: seq<Token>)
    requires rest != [] && rest[0].RParen?
    ensures AndTail(e, TailTokens(KeyAnd, ps, counter) + rest) == Done(Fold(AND, e, ps, counter), rest)
    decreases ps
  {
    if ps == [] {
      assert TailTokens(KeyAnd, ps, counter) + rest == rest;
    } else {
      var more := TailTokens(KeyAnd, ps[1..], counter + 1) + rest;
      var ts := TailTokens(KeyAnd, ps, counter) + rest;
      assert ts[1..] == PredicateTokens(ps[0], counter) + more;
      PrimaryOfPredicate(ps[0], counter, more);
      AndTailOfPredicates(Both(e, Compare(ps[0].column, counter)), ps[1..], counter + 1, rest);
    }
  }

  lemma {:induction false} OrTailOfPredicates(e: Expr, ps: seq<Predicate>, counter: nat, rest: seq<Token>)
    requires rest != [] && rest[0].RParen?
    ensures OrTail(e, TailTokens(KeyOr, ps, counter) + rest) == Done(Fold(OR, e, ps, counter), rest)
    decreases ps
  {
    if ps == [] {
      assert TailTokens(KeyOr, ps, counter) + rest == rest;
    } else {
      var more := TailTokens(KeyOr, ps[1..], counter + 1) + rest;
      var ts := TailTokens(KeyOr, ps, counter) + rest;
      assert ts[1..] == PredicateTokens(ps[0], counter) + more;
      PrimaryOfPredicate(ps[0], counter, more);
      var p := Compare(ps[0].column, counter);
      assert more[0].KeyOr? || more[0].RParen?;
      assert AndTail(p, more) == Done(p, more);
      assert ParseAnd(ts[1..]) == Done(p, more);
      OrTailOfPredicates(Either(e, Compare(ps[0].column, counter)), ps[1..], counter + 1, rest);
    }
  }

  /** The inside of a group's parentheses. */
  lemma ParseInside(g: Group, counter: nat, rest: seq<Token>)
    requires g.predicates != [] && rest != [] && rest[0].RParen?
    ensures var ts := PredicateTokens(g.predicates[0], counter) +
                      (TailTokens(Connective(g.grouping), g.predicates[1..], counter + 1) + rest);
      if GroupOk(g) then ParseOr(ts) == Done(GroupExpr(g, counter), rest)
      else ParseOr(ts).Done? && ParseOr(ts).rest != [] && ParseOr(ts).rest[0].Word?
  {
    var e, ps := Compare(g.predicates[0].column, counter), g.predicates[1..];
    var more := TailTokens(Connective(g.grouping), ps, counter + 1) + rest;
    var ts := PredicateTokens(g.predicates[0], counter) + more;
    PrimaryOfPredicate(g.predicates[0], counter, more);
    assert ParseAnd(ts) == AndTail(e, more);
    if ps == [] {
      assert more == rest;
      assert AndTail(e, rest) == Done(e, rest) && OrTail(e, rest) == Done(e, rest);
    } else {
      assert more[0] == Connective(g.grouping);
      match g.grouping
      case AND =>
        AndTailOfPredicates(e, ps, counter + 1, rest);
        var all := Fold(AND, e, ps, counter + 1);
        assert OrTail(all, rest) == Done(all, rest);
      case OR =>
        assert AndTail(e, more) == Done(e, more);
        OrTailOfPredicates(e, ps, counter + 1, rest);
      case Other(_) =>
        assert AndTail(e, more) == Done(e, more) && OrTail(e, more) == Done(e, more);
    }
  }

  lemma PrimaryOfGroup(g: Group, counter: nat, rest: seq<Token>)
    requires g.predicates != []
    ensures ParsePrimary(GroupTokens(g, counter) + rest) ==
            if GroupOk(g) then Done(GroupExpr(g, counter), rest) else Fail
  {
    var inside := TailTokens(Connective(g.grouping), g.predicates[1..], counter + 1);
    var ts := GroupTokens(g, counter) + rest;
    assert ts[1..] == PredicateTokens(g.predicates[0], counter) + (inside + ([RParen] + rest));
    ParseInside(g, counter, [RParen] + rest);
    assert ([RParen] + rest)[1..] == rest;
  }

  /** What follows the tokens of a non-empty first group. */
  function After(groups: seq<Group>, counter: nat): seq<Token>
    requires groups != []
  {
    (if |groups| > 1 then [KeyAnd] else []) + WhereTokens(groups[1..], counter + |groups[0].predicates|)
  }

  lemma WhereUnfolds(groups: seq<Group>, counter: nat)
    requires groups != [] && groups[0].predicates != []
    ensures WhereTokens(groups, counter) == GroupTokens(groups[0], counter) + After(groups, counter)
  {
  }

  /** After a group and its AND: exactly the spellable lists can be continued to the end. */
  lemma {:induction false} AndTailOfGroups(e: Expr, groups: seq<Group>, counter: nat)
    requires groups != []
    ensures AndTail(e, [KeyAnd] + WhereTokens(groups, counter)) ==
            if Spellable(groups) then Done(FoldGroups(e, groups, counter), []) else Fail
    decreases groups
  {
    var tokens, g, more := WhereTokens(groups, counter), groups[0], groups[1..];
    assert ([KeyAnd] + tokens)[1..] == tokens;
    if g.predicates == [] {
      if more == [] {
        assert WhereTokens(more, counter) == [];
        assert ParsePrimary(tokens) == Fail;
      } else {
        AndTailOfGroups(e, more, counter);
      }
    } else {
      WhereUnfolds(groups, counter);
      PrimaryOfGroup(g, counter, After(groups, counter));
      if GroupOk(g) {
        ContinueAfter(Both(e, GroupExpr(g, counter)), groups, counter);
      }
    }
  }

  /** After a non-empty group with AND or OR: the end, or AND and more groups. */
  lemma {:induction false} ContinueAfter(e: Expr, groups: seq<Group>, counter: nat)
    requires groups != [] && groups[0].predicates != [] && GroupOk(groups[0])
    ensures AndTail(e, After(groups, counter)) ==
            if Spellable(groups) then Done(FoldGroups(e, groups[1..], counter + |groups[0].predicates|), []) else Fail
    decreases groups, 0
  {
    if |groups| == 1 {
      assert After(groups, counter) == [];
    } else {
      AndTailOfGroups(e, groups[1..], counter + |groups[0].predicates|);
    }
  }

  /**
   The generated tokens are a condition exactly when the last group is not empty and the connectives are AND or OR.
   */
  lemma {:induction false} GeneratedParses(groups: seq<Group>, counter: nat)
    ensures ParseWhere(WhereTokens(groups, counter)) ==
            if Spellable(groups) then Some(WhereExpr(groups, counter)) else None
  {
    var ts := WhereTokens(groups, counter);
    if groups == [] {
      assert ParsePrimary(ts) == Fail;
    } else {
      var g := groups[0];
      if g.predicates == [] {
        GeneratedParses(groups[1..], counter);
      } else {
        WhereUnfolds(groups, counter);
        PrimaryOfGroup(g, counter, After(groups, counter));
        if GroupOk(g) {
          assert ParseAnd(ts) == AndTail(GroupExpr(g, counter), After(groups, counter));
          ContinueAfter(GroupExpr(g, counter), groups, counter);
          var all := FoldGroups(GroupExpr(g, counter), groups[1..], counter + |g.predicates|);
          assert OrTail(all, []) == Done(all, []);
        } else {
          assert ParseAnd(ts) == Fail;
        }
      }
    }
  }

  // ---------------------------------------------------------------- meaning

  /** The parameters hold this group's values from placeholder number `counter` on. */
  ghost predicate BoundFrom(params: seq<Option<Value>>, ps: seq<Predicate>, counter: nat) {
    && 1 <= counter && counter - 1 + |ps| <= |params|
    && forall i :: 0 <= i < |ps| ==> params[counter - 1 + i] == ps[i].value
  }

  lemma {:induction false} FoldMeans(g: Grouping, e: Expr, ps: seq<Predicate>, counter: nat, row: Cells,
                                     params: seq<Option<Value>>)
    requires BoundFrom(params, ps, counter)
    ensures Eval(Fold(g, e, ps, counter), row, params) == Yes <==>
            if g == OR then Eval(e, row, params) == Yes || exists i :: 0 <= i < |ps| && PredicateHolds(ps[i], row)
            else Eval(e, row, params) == Yes && forall i :: 0 <= i < |ps| ==> PredicateHolds(ps[i], row)
    decreases ps
  {
    if ps != [] {
      var p := Compare(ps[0].column, counter);
      assert forall i :: 1 <= i < |ps| ==> ps[i] == ps[1..][i - 1];
      assert Eval(p, row, params) == Yes <==> PredicateHolds(ps[0], row);
      FoldMeans(g, if g == OR then Either(e, p) else Both(e, p), ps[1..], counter + 1, row, params);
      if i :| 0 <= i < |ps[1..]| && PredicateHolds(ps[1..][i], row) {
        assert PredicateHolds(ps[i + 1], row);
      }
    }
  }

  lemma GroupMeans(g: Group, counter: nat, row: Cells, params: seq<Option<Value>>)
    requires g.predicates != [] && BoundFrom(params, g.predicates, counter)
    ensures Eval(GroupExpr(g, counter), row, params) == Yes <==> GroupHolds(g, row)
  {
    var ps := g.predicates;
    assert forall i :: 1 <= i < |ps| ==> ps[i] == ps[1..][i - 1];
    assert params[counter - 1] == ps[0].value;
    assert BoundFrom(params, ps[1..], counter + 1);
    FoldMeans(g.grouping, Compare(ps[0].column, counter), ps[1..], counter + 1, row, params);
    if g.grouping == OR {
      if i :| 0 <= i < |ps[1..]| && PredicateHolds(ps[1..][i], row) {
        assert PredicateHolds(ps[i + 1], row);
      }
    }
  }

  /** The parameters hold the values of all groups, in order, from placeholder number `counter` on. */
  ghost predicate AllBoundFrom(params: seq<Option<Value>>, groups: seq<Group>, counter: nat) {
    1 <= counter && counter - 1 <= |params| && params[counter - 1..] == Values(groups)
  }

  lemma {:induction false} FoldGroupsMeans(e: Expr, groups: seq<Group>, counter: nat, row: Cells,
                                           params: seq<Option<Value>>)
    requires AllBoundFrom(params, groups, counter)
    ensures Eval(FoldGroups(e, groups, counter), row, params) == Yes <==>
            Eval(e, row, params) == Yes && AllGroupsHold(groups, row)
    decreases groups
  {
    if groups != [] {
      var g := groups[0];
      if g.predicates == [] {
        FoldGroupsMeans(e, groups[1..], counter, row, params);
      } else {
        GroupMeans(g, counter, row, params);
        FoldGroupsMeans(Both(e, GroupExpr(g, counter)), groups[1..], counter + |g.predicates|, row, params);
      }
    }
  }

  lemma {:induction false} WhereMeans(groups: seq<Group>, counter: nat, row: Cells, params: seq<Option<Value>>)
    requires groups != [] && groups[|groups| - 1].predicates != [] && AllBoundFrom(params, groups, counter)
    ensures Eval(WhereExpr(groups, counter), row, params) == Yes <==> AllGroupsHold(groups, row)
  {
    var g := groups[0];
    if g.predicates == [] {
      WhereMeans(groups[1..], counter, row, params);
    } else {
      GroupMeans(g, counter, row, params);
      FoldGroupsMeans(GroupExpr(g, counter), groups[1..], counter + |g.predicates|, row, params);
    }
  }

  /**
   The generated condition, read by SQL with the extracted values bound to its placeholders, is true
   of a row exactly when every non-empty group holds; otherwise the text is not a condition at all.
   */
  lemma GeneratedWhereIsExact(groups: seq<Group>, row: Cells)
    ensures match ParseWhere(WhereTokens(groups, 1))
            case None => !Spellable(groups)
            case Some(e) => Spellable(groups) && (Eval(e, row, Values(groups)) == Yes <==> AllGroupsHold(groups, row))
  {
    GeneratedParses(groups, 1);
    if Spellable(groups) {
      assert Values(groups)[0..] == Values(groups);
      WhereMeans(groups, 1, row, Values(groups));
    }
  }

  /** A trailing empty group leaves a dangling AND behind. */
  lemma TrailingEmptyGroupBreaksTheClause(p: Predicate)
    ensures var groups := [Group(AND, [p]), Group(AND, [])];
      WhereTokens(groups, 1) == [LParen, Ident(p.column), Equals, Param(1), RParen, KeyAnd] &&
      ParseWhere(WhereTokens(groups, 1)) == None
  {
    var groups := [Group(AND, [p]), Group(AND, [])];
    assert groups[1..] == [Group(AND, [])] && groups[1..][1..] == [];
    assert [p][1..] == [] && TailTokens(KeyAnd, [], 2) == [];
    assert GroupTokens(groups[0], 1) == [LParen, Ident(p.column), Equals, Param(1), RParen];
    WhereUnfolds(groups, 1);
    assert WhereTokens([], 2) == [];
    assert WhereTokens(groups[1..], 2) == [];
    GeneratedParses(groups, 1);
  }

  // ---------------------------------------------------------------- the generators

  /** One group in parentheses, its predicates numbered from `counter` on. */
  method GenerateGroup(g: Group, counter: nat) returns (ts: seq<Token>)
    requires g.predicates != []
    ensures ts == GroupTokens(g, counter)
  {
    ts := [LParen] + PredicateTokens(g.predicates[0], counter);
    for j := 1 to |g.predicates|
      invariant ts == [LParen] + PredicateTokens(g.predicates[0], counter) +
                      TailTokens(Connective(g.grouping), g.predicates[1..j], counter + 1)
    {
      TailTokensSnoc(Connective(g.grouping), g.predicates[1..j], g.predicates[j], counter + 1);
      assert g.predicates[1..j] + [g.predicates[j]] == g.predicates[1..j + 1];
      ts := ts + ([Connective(g.grouping)] + PredicateTokens(g.predicates[j], counter + j));
    }
    assert g.predicates[1..|g.predicates|] == g.predicates[1..];
    ts := ts + [RParen];
  }

  function AndAfter(groups: seq<Group>, i: nat): seq<Token> {
    if i + 1 < |groups| then [KeyAnd] else []
  }

  /** What the loop over the groups has written and still has to write, before and after group i. */
  lemma WhereStep(ts: seq<Token>, groups: seq<Group>, i: nat, counter: nat)
    requires i < |groups|
    ensures ts + WhereTokens(groups[i..], counter) ==
            if groups[i].predicates == [] then ts + WhereTokens(groups[i + 1..], counter)
            else
              ts + GroupTokens(groups[i], counter) + AndAfter(groups, i) +
              WhereTokens(groups[i + 1..], counter + |groups[i].predicates|)
  {
    assert groups[i..][0] == groups[i] && groups[i..][1..] == groups[i + 1..];
    if groups[i].predicates != [] {
      var rest := WhereTokens(groups[i + 1..], counter + |groups[i].predicates|);
      Appended(ts, GroupTokens(groups[i], counter), AndAfter(groups, i), rest);
    }
  }

  lemma Appended(ts: seq<Token>, group: seq<Token>, and: seq<Token>, rest: seq<Token>)
    ensures ts + (group + and + rest) == ts + group + and + rest
  {
  }

  /** The loop both generators share. */
  method GenerateGroups(groups: seq<Group>) returns (ts: seq<Token>)
    ensures ts == WhereTokens(groups, 1)
  {
    ts := [];
    var counter := 1;
    for i := 0 to |groups|
      invariant counter >= 1
      invariant ts + WhereTokens(groups[i..], counter) == WhereTokens(groups, 1)
    {
      WhereStep(ts, groups, i, counter);
      if |groups[i].predicates| == 0 {
        continue;
      }
      var group := GenerateGroup(groups[i], counter);
      counter := counter + |groups[i].predicates|;
      ts := ts + group + if i < |groups| - 1 then [KeyAnd] else [];
    }
  }

  lemma {:induction false} TailTokensSnoc(c: Token, ps: seq<Predicate>, p: Predicate, counter: nat)
    ensures TailTokens(c, ps + [p], counter) ==
            TailTokens(c, ps, counter) + ([c] + PredicateTokens(p, counter + |ps|))
    decreases ps
  {
    if ps == [] {
      assert (ps + [p])[1..] == [];
    } else {
      assert (ps + [p])[1..] == ps[1..] + [p];
      TailTokensSnoc(c, ps[1..], p, counter + 1);
    }
  }

  /** The inner loop of extractPredicateValues. */
  method FillGroup(results: array<Option<Value>>, first: nat, g: Group)
    requires first + |g.predicates| <= results.Length
    modifies results
    ensures results[..first + |g.predicates|] == old(results[..first]) + GroupValues(g)
  {
    for j := 0 to |g.predicates|
      invariant results[..first + j] == old(results[..first]) + GroupValues(g)[..j]
    {
      results[first + j] := g.predicates[j].value;
      assert results[..first + j + 1] == results[..first + j] + [results[first + j]];
    }
    assert GroupValues(g)[..|g.predicates|] == GroupValues(g);
  }

  /** The first loop of extractPredicateValues. */
  method CountAll(groups: seq<Group>) returns (predicateCount: nat)
    ensures predicateCount == |Values(groups)|
  {
    predicateCount := 0;
    for i := 0 to |groups|
      invariant predicateCount + CountPredicates(groups[i..]) == CountPredicates(groups)
    {
      assert groups[i..][0] == groups[i] && groups[i..][1..] == groups[i + 1..];
      predicateCount := predicateCount + |groups[i].predicates|;
    }
    ValuesCount(groups);
  }

  lemma ValuesStep(done: seq<Option<Value>>, groups: seq<Group>, i: nat)
    requires i < |groups|
    ensures done + Values(groups[i..]) == done + GroupValues(groups[i]) + Values(groups[i + 1..])
  {
    assert groups[i..][0] == groups[i] && groups[i..][1..] == groups[i + 1..];
  }

  /** extractPredicateValues: as many slots as predicates, filled by a running counter. */
  method ExtractValues(groups: seq<Group>) returns (results: array<Option<Value>>)
    ensures fresh(results) && results[..] == Values(groups)
  {
    var predicateCount := CountAll(groups);
    results := new Option<Value>[predicateCount](_ => None);
    var counter := 0;
    for i := 0 to |groups|
      invariant 0 <= counter <= results.Length
      invariant results[..counter] + Values(groups[i..]) == Values(groups)
    {
      ValuesStep(results[..counter], groups, i);
      FillGroup(results, counter, groups[i]);
      counter := counter + |groups[i].predicates|;
    }
    assert Values(groups[|groups|..]) == [];
    assert results[..] == results[..counter];
  }

  lemma {:induction false} ValuesCount(groups: seq<Group>)
    ensures |Values(groups)| == CountPredicates(groups)
  {
    if groups != [] {
      ValuesCount(groups[1..]);
    }
  }

  // ---------------------------------------------------------------- ClickHouse

  /** Whether ClickHouse selects the row, if the tokens are a condition. */
  function ClickHouseSelects(ts: seq<Token>, row: Cells, params: seq<Option<Value>>): Option<bool> {
    if ts == [Word("1")] then Some(true)
    else
      match ParseWhere(ts)
      case None => None
      case Some(e) => Some(Eval(e, row, params) == Yes)
  }

  /** The ClickHouse condition selects a row exactly when every non-empty group holds, and every row without groups. */
  lemma ClickHouseWhereIsExact(groups: seq<Group>, row: Cells)
    ensures ClickHouseSelects(if groups == [] then [Word("1")] else WhereTokens(groups, 1), row, Values(groups)) ==
            if groups == [] || Spellable(groups) then Some(AllGroupsHold(groups, row)) else None
  {
    GeneratedWhereIsExact(groups, row);
    GeneratedParses(groups, 1);
    if groups != [] {
      var one := [Word("1")];
      assert ParsePrimary(one) == Fail;
      assert ParseWhere(one) == None;
    }
  }

  /**
   generateDeleteForDeleteRecord's condition. With the extracted values bound it selects exactly the rows of which all
   groups hold, every row when there are none, and it is no condition exactly when the groups cannot be spelled.
   */
  method GenerateClickHouseWhere(groups: seq<Group>) returns (ts: seq<Token>)
    ensures groups != [] ==> ts == WhereTokens(groups, 1)
    ensures forall row :: ClickHouseSelects(ts, row, Values(groups)) ==
                          if groups == [] || Spellable(groups) then Some(AllGroupsHold(groups, row)) else None
  {
    if |groups| == 0 {
      ts := [Word("1")];
    } else {
      ts := GenerateGroups(groups);
    }
    forall row ensures ClickHouseSelects(ts, row, Values(groups)) ==
                       if groups == [] || Spellable(groups) then Some(AllGroupsHold(groups, row)) else None {
      ClickHouseWhereIsExact(groups, row);
    }
  }
}
