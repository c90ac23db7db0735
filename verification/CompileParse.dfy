/** The tokens of a compiled filter parse to its expression, whatever follows them. */
module CompileParse {
  import opened Basics
  import opened FilterAst
  import opened FieldRegistry
  import opened FilterCompile
  import opened SqlSyntax
  import opened CompileTokens
  import CompileText

  lemma {:induction false} ParsePlaceholders(a: nat, k: nat, rest: List<Token>)
    requires k > 0
    ensures ParseOperands(PlaceholderTokens(a, k, Cons(RParen, rest))) == Some((ParamOperands(a, k), rest))
    decreases k
  {
    if k > 1 {
      ParsePlaceholders(a + 1, k - 1, rest);
    }
  }

  lemma ParseExistsFilter(join: ExistsJoin, rest: List<Token>)
    ensures ParseNot(ColumnTokens(ColumnName(join.table, join.joinColumn), Cons(Compare(CmpEq),
              ColumnTokens(ColumnName("tickets", "id"), rest)))) == Some((ExistsFilter(join), rest))
  {
    var column := ColumnTokens(ColumnName("tickets", "id"), rest);
    assert ParseOperand(column) == Some((Column("tickets", "id"), rest));
    var ts := ColumnTokens(ColumnName(join.table, join.joinColumn), Cons(Compare(CmpEq), column));
    assert ParseOperand(ts) == Some((Column(join.table, join.joinColumn), Cons(Compare(CmpEq), column)));
    assert ParsePrimary(ts) == Some((ExistsFilter(join), rest));
  }

  // ------------------------------------------------- single parsing steps

  lemma AndOf(ts: List<Token>, e: Expr, rest: List<Token>)
    requires ParseNot(ts) == Some((e, rest))
    ensures ParseAnd(ts) == AndTail(e, rest)
  {
  }

  lemma AndStep(acc: Expr, ts: List<Token>, e: Expr, rest: List<Token>)
    requires ParseNot(ts) == Some((e, rest))
    ensures AndTail(acc, Cons(KwAnd, ts)) == AndTail(And(acc, e), rest)
  {
  }

  lemma OrOf(ts: List<Token>, e: Expr, rest: List<Token>)
    requires ParseAnd(ts) == Some((e, rest))
    ensures ParseOr(ts) == OrTail(e, rest)
  {
  }

  lemma OrStep(acc: Expr, ts: List<Token>, e: Expr, rest: List<Token>)
    requires ParseAnd(ts) == Some((e, rest))
    ensures OrTail(acc, Cons(KwOr, ts)) == OrTail(Or(acc, e), rest)
  {
  }

  lemma Stops(acc: Expr, ts: List<Token>)
    requires ts.Nil? || (ts.head != KwAnd && ts.head != KwOr)
    ensures AndTail(acc, ts) == Some((acc, ts)) && OrTail(acc, ts) == Some((acc, ts))
  {
  }

  lemma InParens(ts: List<Token>, e: Expr, rest: List<Token>)
    requires ParseOr(ts) == Some((e, Cons(RParen, rest)))
    ensures ParseNot(Cons(LParen, ts)) == Some((e, rest))
  {
    assert ParsePrimary(Cons(LParen, ts)) == Some((e, rest));
  }

  lemma InExists(table: string, ts: List<Token>, e: Expr, rest: List<Token>)
    requires ParseOr(ts) == Some((e, Cons(RParen, rest)))
    ensures
      var tail := Cons(KwFrom, Cons(Name(table), Cons(KwWhere, ts)));
      ParseNot(Cons(KwExists, Cons(LParen, Cons(KwSelect, Cons(Number(1), tail))))) == Some((Exists(table, e), rest))
  {
    var header := Cons(LParen, Cons(KwSelect, Cons(Number(1), Cons(KwFrom, Cons(Name(table), Cons(KwWhere, ts))))));
    assert ExistsHeader(header) == Some((table, ts));
    assert ParsePrimary(Cons(KwExists, header)) == Some((Exists(table, e), rest));
  }

  lemma ParseExistsRows(join: ExistsJoin, rest: List<Token>)
    ensures ParseNot(ExistsTokens(join, Cons(RParen, rest))) == Some((Exists(join.table, ExistsFilter(join)), rest))
  {
    var filter := ColumnTokens(ColumnName(join.table, join.joinColumn), Cons(Compare(CmpEq),
      ColumnTokens(ColumnName("tickets", "id"), Cons(RParen, rest))));
    var e := ExistsFilter(join);
    ParseExistsFilter(join, Cons(RParen, rest));
    AndOf(filter, e, Cons(RParen, rest));
    Stops(e, Cons(RParen, rest));
    OrOf(filter, e, Cons(RParen, rest));
    InExists(join.table, filter, e, rest);
  }

  lemma ParseInList(name: ColumnName, a: nat, k: nat, rest: List<Token>)
    requires k > 0
    ensures ParseNot(ColumnTokens(name, Cons(KwIn, Cons(LParen, PlaceholderTokens(a, k, Cons(RParen, rest)))))) ==
            Some((In(Column(name.table, name.column), ParamOperands(a, k)), rest))
    ensures
      var list := Cons(LParen, PlaceholderTokens(a, k, Cons(RParen, rest)));
      ParseNot(ColumnTokens(name, Cons(KwNot, Cons(KwIn, list)))) ==
            Some((Not(In(Column(name.table, name.column), ParamOperands(a, k))), rest))
  {
    ParsePlaceholders(a, k, rest);
    var list := Cons(KwIn, Cons(LParen, PlaceholderTokens(a, k, Cons(RParen, rest))));
    var x := Column(name.table, name.column);
    assert ParsePredicate(x, list) == Some((In(x, ParamOperands(a, k)), rest));
    assert ParsePredicate(x, Cons(KwNot, list)) == Some((Not(In(x, ParamOperands(a, k))), rest));
    assert ParsePrimary(ColumnTokens(name, list)) == ParsePredicate(x, list);
    assert ParsePrimary(ColumnTokens(name, Cons(KwNot, list))) == ParsePredicate(x, Cons(KwNot, list));
  }

  lemma ParseExistsIn(join: ExistsJoin, n: nat, k: nat, rest: List<Token>)
    requires k > 0
    ensures ParseNot(ExistsInTokens(join, n, k, rest)) == Some((ExistsInExpr(join, n, k), rest))
  {
    var name := ColumnName(join.table, join.valueColumn);
    var close := Cons(RParen, rest);
    var list := ColumnTokens(name, Cons(KwIn, Cons(LParen, PlaceholderTokens(n + 1, k, Cons(RParen, close)))));
    ParseInList(name, n + 1, k, close);
    var e, isIn := ExistsFilter(join), In(Column(name.table, name.column), ParamOperands(n + 1, k));
    ParseExistsFilter(join, Cons(KwAnd, list));
    var filter := ColumnTokens(ColumnName(join.table, join.joinColumn), Cons(Compare(CmpEq),
      ColumnTokens(ColumnName("tickets", "id"), Cons(KwAnd, list))));
    AndOf(filter, e, Cons(KwAnd, list));
    AndStep(e, list, isIn, close);
    Stops(And(e, isIn), close);
    OrOf(filter, And(e, isIn), close);
    InExists(join.table, filter, And(e, isIn), rest);
  }

  lemma ParseNegated(ts: List<Token>, e: Expr, rest: List<Token>)
    requires ParseNot(ts) == Some((e, rest))
    ensures ParseNot(Cons(KwNot, ts)) == Some((Not(e), rest))
  {
  }

  // A column followed by one of the tails without parentheses.
  lemma ParseTail(name: ColumnName, tail: List<Token>, e: Expr, rest: List<Token>)
    requires ParsePredicate(Column(name.table, name.column), tail) == Some((e, rest))
    ensures ParseNot(ColumnTokens(name, tail)) == Some((e, rest))
  {
    assert ParseOperand(ColumnTokens(name, tail)) == Some((Column(name.table, name.column), tail));
    assert ParsePrimary(ColumnTokens(name, tail)) == Some((e, rest));
  }

  lemma ParseNullCheck(c: FilterNode, n: nat, entry: FieldEntry, name: ColumnName, rest: List<Token>)
    requires c.Condition? && (c.operator == OpIsNull || c.operator == OpIsNotNull)
    ensures ParseNot(ConditionTokens(c, n, entry, name, rest)) == Some((ConditionExpr(c, n, entry, name), rest))
  {
    match entry.join
    case Some(join) => ParseRelationCheck(c, n, entry, name, join, rest);
    case None => ParseColumnCheck(c, n, entry, name, rest);
  }

  lemma ParseRelationCheck(c: FilterNode, n: nat, entry: FieldEntry, name: ColumnName, join: ExistsJoin,
                           rest: List<Token>)
    requires c.Condition? && (c.operator == OpIsNull || c.operator == OpIsNotNull) && entry.join == Some(join)
    ensures ParseNot(ConditionTokens(c, n, entry, name, rest)) == Some((ConditionExpr(c, n, entry, name), rest))
  {
    ParseExistsRows(join, rest);
    if c.operator == OpIsNull {
      ParseNegated(ExistsTokens(join, Cons(RParen, rest)), Exists(join.table, ExistsFilter(join)), rest);
    }
  }

  lemma ParseColumnCheck(c: FilterNode, n: nat, entry: FieldEntry, name: ColumnName, rest: List<Token>)
    requires c.Condition? && (c.operator == OpIsNull || c.operator == OpIsNotNull) && entry.join.None?
    ensures ParseNot(ConditionTokens(c, n, entry, name, rest)) == Some((ConditionExpr(c, n, entry, name), rest))
  {
    var x := Column(name.table, name.column);
    if c.operator == OpIsNull {
      ParseTail(name, Cons(KwIs, Cons(KwNull, rest)), IsNull(x), rest);
    } else {
      ParseTail(name, Cons(KwIs, Cons(KwNot, Cons(KwNull, rest))), Not(IsNull(x)), rest);
    }
  }

  lemma ParseMembership(c: FilterNode, n: nat, entry: FieldEntry, name: ColumnName, rest: List<Token>)
    requires c.Condition? && (c.operator == OpIn || c.operator == OpNotIn) && Arity(c) > 0
    ensures ParseNot(ConditionTokens(c, n, entry, name, rest)) == Some((ConditionExpr(c, n, entry, name), rest))
  {
    match entry.join
    case Some(join) =>
      ParseExistsIn(join, n, Arity(c), rest);
      ParseNegated(ExistsInTokens(join, n, Arity(c), rest), ExistsInExpr(join, n, Arity(c)), rest);
    case None =>
      ParseInList(name, n + 1, Arity(c), rest);
  }

  lemma ParseCondition(c: FilterNode, n: nat, entry: FieldEntry, name: ColumnName, rest: List<Token>)
    requires c.Condition?
    requires c.operator == OpIn || c.operator == OpNotIn ==> Arity(c) > 0
    ensures ParseNot(ConditionTokens(c, n, entry, name, rest)) == Some((ConditionExpr(c, n, entry, name), rest))
  {
    var x := Column(name.table, name.column);
    var p := Cons(Placeholder(n + 1), rest);
    match c.operator
    case OpIsNull => ParseNullCheck(c, n, entry, name, rest);
    case OpIsNotNull => ParseNullCheck(c, n, entry, name, rest);
    case OpIn => ParseMembership(c, n, entry, name, rest);
    case OpNotIn => ParseMembership(c, n, entry, name, rest);
    case OpBetween =>
      ParseTail(name, Cons(KwBetween, Cons(Placeholder(n + 1), Cons(KwAnd, Cons(Placeholder(n + 2), rest)))),
                Between(x, Param(n + 1), Param(n + 2)), rest);
    case OpContains => ParseTail(name, Cons(KwILike, p), ILikes(x, Param(n + 1)), rest);
    case op => ParseTail(name, Cons(Compare(CompareOf(op)), p), Comparison(CompareOf(op), x, Param(n + 1)), rest);
  }

  // A node's tokens parse to its expression, whatever follows them.
  ghost predicate Parses(node: FilterNode, m: nat, catalog: Catalog, naming: Naming) {
    forall rest ::
      ParseNot(NodeTokens(node, m, catalog, naming, rest)) == Some((NodeExpr(node, m, catalog, naming), rest))
  }

  ghost predicate ChildrenParse(children: seq<FilterNode>, n: nat, catalog: Catalog, naming: Naming) {
    forall i :: 0 <= i < |children| ==> Parses(children[i], n + Offset(children, i), catalog, naming)
  }

  lemma {:induction false} ParseNode(node: FilterNode, n: nat, catalog: Catalog, naming: Naming, compiled: Compiled)
    requires CompileNode(node, n, catalog) == Ok(compiled)
    ensures Parses(node, n, catalog, naming)
    decreases node, 1
  {
    hide FilterCompile.CompileCondition, Parses;
    match node
    case Condition(_, _, _) => ParseConditionNode(node, n, catalog, naming);
    case Group(op, children) =>
      if children == [] {
        ParseEmptyGroup(op, n, catalog, naming);
      } else {
        GroupCompiles(op, children, n, catalog);
        forall i | 0 <= i < |children|
          ensures Parses(children[i], n + Offset(children, i), catalog, naming)
        {
          ParseChildNode(children, i, n, catalog, naming);
        }
        ParseGroup(op, children, n, catalog, naming);
      }
  }

  lemma GroupCompiles(op: GroupOp, children: seq<FilterNode>, n: nat, catalog: Catalog)
    requires children != [] && CompileNode(Group(op, children), n, catalog).Ok?
    ensures CompileChildren(children, |children|, n, catalog).Ok?
  {
  }

  lemma ParseEmptyGroup(op: GroupOp, n: nat, catalog: Catalog, naming: Naming)
    ensures Parses(Group(op, []), n, catalog, naming)
  {
  }

  lemma ParseConditionNode(c: FilterNode, n: nat, catalog: Catalog, naming: Naming)
    requires c.Condition? && CompileCondition(c, n, catalog).Ok?
    ensures Parses(c, n, catalog, naming)
  {
    ConditionArity(c, n, catalog);
    forall rest
      ensures ParseNot(NodeTokens(c, n, catalog, naming, rest)) == Some((NodeExpr(c, n, catalog, naming), rest))
    {
      ParseCondition(c, n, catalog.lookup(c.field).value, naming(c.field), rest);
    }
  }

  lemma {:induction false} ParseChildNode(children: seq<FilterNode>, i: nat, n: nat, catalog: Catalog, naming: Naming)
    requires i < |children| && CompileChildren(children, |children|, n, catalog).Ok?
    ensures Parses(children[i], n + Offset(children, i), catalog, naming)
    decreases children[i], 2
  {
    hide FilterCompile.CompileCondition;
    var child := ChildSucceeds(children, i, n, catalog);
    ParseNode(children[i], n + Offset(children, i), catalog, naming, child);
  }

  lemma ParseGroup(op: GroupOp, children: seq<FilterNode>, n: nat, catalog: Catalog, naming: Naming)
    requires children != [] && ChildrenParse(children, n, catalog, naming)
    ensures Parses(Group(op, children), n, catalog, naming)
  {
    forall rest
      ensures ParseNot(NodeTokens(Group(op, children), n, catalog, naming, rest)) ==
              Some((NodeExpr(Group(op, children), n, catalog, naming), rest))
    {
      var close := Cons(RParen, rest);
      if op == AllOf {
        ParseAllOf(children, n, catalog, naming, close);
      } else {
        ParseAnyOf(children, n, catalog, naming, close);
      }
      InParens(ChildTokens(children, 0, n, op, catalog, naming, close),
               ChainExpr(children, |children|, n, op, catalog, naming), rest);
    }
  }

  // One child and what follows it.
  lemma ParseChild(children: seq<FilterNode>, i: nat, n: nat, op: GroupOp, catalog: Catalog, naming: Naming,
                   close: List<Token>)
    returns (e: Expr, rest: List<Token>)
    requires i < |children| && ChildrenParse(children, n, catalog, naming)
    ensures e == NodeExpr(children[i], n + Offset(children, i), catalog, naming)
    ensures rest == if i + 1 == |children| then close
                    else Cons(Joiner(op), ChildTokens(children, i + 1, n, op, catalog, naming, close))
    ensures ParseNot(ChildTokens(children, i, n, op, catalog, naming, close)) == Some((e, rest))
  {
    e := NodeExpr(children[i], n + Offset(children, i), catalog, naming);
    rest := if i + 1 == |children| then close
            else Cons(Joiner(op), ChildTokens(children, i + 1, n, op, catalog, naming, close));
    assert Parses(children[i], n + Offset(children, i), catalog, naming);
  }

  lemma ParseOrChild(children: seq<FilterNode>, i: nat, n: nat, catalog: Catalog, naming: Naming, close: List<Token>)
    returns (e: Expr, rest: List<Token>)
    requires i < |children| && ChildrenParse(children, n, catalog, naming)
    requires close.Cons? && close.head == RParen
    ensures e == NodeExpr(children[i], n + Offset(children, i), catalog, naming)
    ensures rest == if i + 1 == |children| then close
                    else Cons(KwOr, ChildTokens(children, i + 1, n, AnyOf, catalog, naming, close))
    ensures ParseAnd(ChildTokens(children, i, n, AnyOf, catalog, naming, close)) == Some((e, rest))
  {
    e, rest := ParseChild(children, i, n, AnyOf, catalog, naming, close);
    AndOf(ChildTokens(children, i, n, AnyOf, catalog, naming, close), e, rest);
    NoMoreAnds(e, rest);
  }

  lemma NoMoreAnds(acc: Expr, ts: List<Token>)
    requires ts.Nil? || ts.head != KwAnd
    ensures AndTail(acc, ts) == Some((acc, ts))
  {
  }

  lemma NextOfChain(children: seq<FilterNode>, i: nat, n: nat, op: GroupOp, catalog: Catalog, naming: Naming)
    requires 0 < i < |children|
    ensures
      var acc := ChainExpr(children, i, n, op, catalog, naming);
      var e := NodeExpr(children[i], n + Offset(children, i), catalog, naming);
      ChainExpr(children, i + 1, n, op, catalog, naming) == if op == AllOf then And(acc, e) else Or(acc, e)
  {
  }

  lemma {:induction false} ParseAndChildren(children: seq<FilterNode>, i: nat, n: nat, catalog: Catalog,
                                            naming: Naming, close: List<Token>)
    requires 0 < i < |children| && ChildrenParse(children, n, catalog, naming)
    requires close.Cons? && close.head == RParen
    ensures AndTail(ChainExpr(children, i, n, AllOf, catalog, naming),
                    Cons(KwAnd, ChildTokens(children, i, n, AllOf, catalog, naming, close))) ==
            Some((ChainExpr(children, |children|, n, AllOf, catalog, naming), close))
    decreases |children| - i
  {
    NextOfChain(children, i, n, AllOf, catalog, naming);
    var e, rest := ParseChild(children, i, n, AllOf, catalog, naming, close);
    if i + 1 < |children| {
      ParseAndChildren(children, i + 1, n, catalog, naming, close);
    } else {
      Stops(ChainExpr(children, i + 1, n, AllOf, catalog, naming), close);
    }
    AndStep(ChainExpr(children, i, n, AllOf, catalog, naming),
            ChildTokens(children, i, n, AllOf, catalog, naming, close), e, rest);
  }

  lemma {:induction false} ParseOrChildren(children: seq<FilterNode>, i: nat, n: nat, catalog: Catalog,
                                           naming: Naming, close: List<Token>)
    requires 0 < i < |children| && ChildrenParse(children, n, catalog, naming)
    requires close.Cons? && close.head == RParen
    ensures OrTail(ChainExpr(children, i, n, AnyOf, catalog, naming),
                   Cons(KwOr, ChildTokens(children, i, n, AnyOf, catalog, naming, close))) ==
            Some((ChainExpr(children, |children|, n, AnyOf, catalog, naming), close))
    decreases |children| - i
  {
    NextOfChain(children, i, n, AnyOf, catalog, naming);
    var e, rest := ParseOrChild(children, i, n, catalog, naming, close);
    if i + 1 < |children| {
      ParseOrChildren(children, i + 1, n, catalog, naming, close);
    } else {
      Stops(ChainExpr(children, i + 1, n, AnyOf, catalog, naming), close);
    }
    OrStep(ChainExpr(children, i, n, AnyOf, catalog, naming),
           ChildTokens(children, i, n, AnyOf, catalog, naming, close), e, rest);
  }

  lemma FirstOfChain(children: seq<FilterNode>, n: nat, op: GroupOp, catalog: Catalog, naming: Naming)
    requires children != []
    ensures ChainExpr(children, 1, n, op, catalog, naming) ==
            NodeExpr(children[0], n + Offset(children, 0), catalog, naming)
  {
  }

  lemma ParseConjunction(children: seq<FilterNode>, n: nat, catalog: Catalog, naming: Naming, close: List<Token>)
    requires children != [] && ChildrenParse(children, n, catalog, naming)
    requires close.Cons? && close.head == RParen
    ensures ParseAnd(ChildTokens(children, 0, n, AllOf, catalog, naming, close)) ==
            Some((ChainExpr(children, |children|, n, AllOf, catalog, naming), close))
  {
    var e, rest := ParseChild(children, 0, n, AllOf, catalog, naming, close);
    FirstOfChain(children, n, AllOf, catalog, naming);
    AndOf(ChildTokens(children, 0, n, AllOf, catalog, naming, close), e, rest);
    if |children| > 1 {
      ParseAndChildren(children, 1, n, catalog, naming, close);
    } else {
      Stops(e, close);
    }
  }

  lemma ParseAllOf(children: seq<FilterNode>, n: nat, catalog: Catalog, naming: Naming, close: List<Token>)
    requires children != [] && ChildrenParse(children, n, catalog, naming)
    requires close.Cons? && close.head == RParen
    ensures ParseOr(ChildTokens(children, 0, n, AllOf, catalog, naming, close)) ==
            Some((ChainExpr(children, |children|, n, AllOf, catalog, naming), close))
  {
    ParseConjunction(children, n, catalog, naming, close);
    OnlyConjunct(ChildTokens(children, 0, n, AllOf, catalog, naming, close),
                 ChainExpr(children, |children|, n, AllOf, catalog, naming), close);
  }

  lemma OnlyConjunct(ts: List<Token>, e: Expr, close: List<Token>)
    requires ParseAnd(ts) == Some((e, close)) && close.Cons? && close.head == RParen
    ensures ParseOr(ts) == Some((e, close))
  {
    OrOf(ts, e, close);
    Stops(e, close);
  }

  lemma ParseDisjuncts(children: seq<FilterNode>, n: nat, catalog: Catalog, naming: Naming, close: List<Token>)
    returns (e: Expr, rest: List<Token>)
    requires children != [] && ChildrenParse(children, n, catalog, naming)
    requires close.Cons? && close.head == RParen
    ensures ParseAnd(ChildTokens(children, 0, n, AnyOf, catalog, naming, close)) == Some((e, rest))
    ensures OrTail(e, rest) == Some((ChainExpr(children, |children|, n, AnyOf, catalog, naming), close))
  {
    e, rest := ParseOrChild(children, 0, n, catalog, naming, close);
    FirstOfChain(children, n, AnyOf, catalog, naming);
    if |children| > 1 {
      ParseOrChildren(children, 1, n, catalog, naming, close);
    } else {
      Stops(e, close);
    }
  }

  lemma ParseAnyOf(children: seq<FilterNode>, n: nat, catalog: Catalog, naming: Naming, close: List<Token>)
    requires children != [] && ChildrenParse(children, n, catalog, naming)
    requires close.Cons? && close.head == RParen
    ensures ParseOr(ChildTokens(children, 0, n, AnyOf, catalog, naming, close)) ==
            Some((ChainExpr(children, |children|, n, AnyOf, catalog, naming), close))
  {
    var e, rest := ParseDisjuncts(children, n, catalog, naming, close);
    OrOf(ChildTokens(children, 0, n, AnyOf, catalog, naming, close), e, rest);
  }

  // The printed text of every filter that compiles is one expression of the
  // language, and it is the expression the filter stands for.
  lemma CompiledTextParses(node: FilterNode, n: nat, catalog: Catalog, naming: Naming)
    requires CatalogNames(catalog, naming) && CompileNode(node, n, catalog).Ok?
    ensures ParseSql(CompileNode(node, n, catalog).value.sql) == Some(NodeExpr(node, n, catalog, naming))
  {
    CompileText.CompiledTextLexes(node, n, catalog, naming);
    var ts, e := NodeTokens(node, n, catalog, naming, Nil), NodeExpr(node, n, catalog, naming);
    ParseNode(node, n, catalog, naming, CompileNode(node, n, catalog).value);
    assert Parses(node, n, catalog, naming);
    AndOf(ts, e, Nil);
    Stops(e, Nil);
    OrOf(ts, e, Nil);
  }
}
