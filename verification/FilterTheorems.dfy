/** The compiler's guarantees for the registry it ships with. */
module FilterTheorems {
  import opened Basics
  import opened Json
  import opened FilterAst
  import opened FieldRegistry
  import opened FilterCompile
  import opened SqlSyntax
  import opened SqlSemantics
  import opened CompileTokens
  import opened FilterMeaning
  import opened FilterValidate
  import opened CompileMeaning
  import opened StandardFields
  import CompileText
  import LikePattern

  // ------------------------------------------------------ the shipped registry

  lemma RegistryNamesArePlain()
    ensures PlainName("tickets") && PlainName("status") && PlainName("priority") && PlainName("category_id")
    ensures PlainName("category_path") && PlainName("assignment_group_id") && PlainName("assignee_id")
    ensures PlainName("organization_id") && PlainName("sla_state")
  {
  }

  lemma MoreRegistryNamesArePlain()
    ensures PlainName("created_at") && PlainName("updated_at") && PlainName("resolved_at") && PlainName("has_jira_link")
    ensures PlainName("ticket_tags") && PlainName("ticket_id") && PlainName("tag_id")
    ensures PlainName("ticket_affected_areas") && PlainName("area_id")
  {
  }

  lemma EntryNamesColumn(field: FieldName)
    requires Lookup(field).Some?
    ensures NamesColumn(Lookup(field).value, StandardNaming(field))
  {
    RegistryNamesArePlain();
    MoreRegistryNamesArePlain();
  }

  lemma EnumEntryIsTyped(column: string, values: seq<string>)
    ensures Typed(EnumEntry(column, values))
  {
  }

  lemma UuidEntryIsTyped(column: string, allowed: seq<Operator>, join: Option<ExistsJoin>)
    requires forall op :: op in allowed ==> op in EQUALITY
    ensures Typed(UuidEntry(column, allowed, join))
  {
  }

  lemma TimestampEntryIsTyped(column: string)
    ensures Typed(TimestampEntry(column))
  {
  }

  lemma EntryIsTyped(field: FieldName)
    requires Lookup(field).Some?
    ensures Typed(Lookup(field).value)
  {
    var entry := Lookup(field).value;
    if entry.sqlType == TextEnumType {
      EnumEntryIsTyped(entry.column, entry.scalarSchema.values);
    } else if entry.sqlType == UuidType {
      UuidEntryIsTyped(entry.column, entry.allowed, entry.join);
    } else if entry.sqlType == TimestampType {
      TimestampEntryIsTyped(entry.column);
    }
  }

  lemma StandardCatalogIsSound(dates: Dates)
    ensures SoundCatalog(StandardCatalog(dates), StandardNaming)
  {
    forall f | Lookup(f).Some?
      ensures NamesColumn(Lookup(f).value, StandardNaming(f)) && Typed(Lookup(f).value)
    {
      EntryNamesColumn(f);
      EntryIsTyped(f);
    }
  }

  predicate IsTagOrAreaEquality(c: FilterNode) {
    c.Condition? && (c.field == TagId || c.field == AffectedArea) && c.operator == OpEq
  }

  lemma BareRelationIsEquality(c: FilterNode, dates: Dates)
    requires c.Condition? && WellFormed(c, StandardCatalog(dates))
    ensures PrintsBareRelation(c, StandardCatalog(dates)) <==> IsTagOrAreaEquality(c)
  {
  }

  // Every accepted filter compiles. On every ticket the compiled query answers
  // what the filter means, except that equality on a tag or an affected area,
  // which is printed outside EXISTS, makes the query unresolvable.
  lemma AcceptedFiltersRun(ast: FilterNode, ticket: Row, world: World, dates: Dates)
    requires LikePattern.KeepsWildcards(world.fold) && Valid(ast, StandardCatalog(dates))
    ensures var compiled := CompileNode(ast, 0, StandardCatalog(dates));
      compiled.Ok? &&
      RunOn(ticket, world, compiled.value) ==
      if exists c :: c in Conditions(ast) && IsTagOrAreaEquality(c) then UnresolvedName
      else Answered(Meaning(ast, ticket, world, StandardAttributes, dates))
  {
    var catalog := StandardCatalog(dates);
    StandardCatalogIsSound(dates);
    ValidCompiles(ast, 0, catalog, StandardNaming);
    StandardFieldsAreKept(dates);
    CompilePreservesMeaning(ast, ticket, world, catalog, StandardNaming, StandardAttributes);
    forall c | c in Conditions(ast)
      ensures PrintsBareRelation(c, catalog) <==> IsTagOrAreaEquality(c)
    {
      BareRelationIsEquality(c, dates);
    }
  }

  lemma ZeroUuid()
    ensures IsUuid("00000000-0000-0000-0000-000000000000")
  {
  }

  // A concrete accepted filter that the database refuses.
  lemma TagEqualityIsUnresolved(ticket: Row, world: World, dates: Dates)
    requires LikePattern.KeepsWildcards(world.fold)
    ensures var ast := Condition(TagId, OpEq, JStr("00000000-0000-0000-0000-000000000000"));
      Valid(ast, StandardCatalog(dates)) &&
      CompileNode(ast, 0, StandardCatalog(dates)).Ok? &&
      RunOn(ticket, world, CompileNode(ast, 0, StandardCatalog(dates)).value) == UnresolvedName
  {
    var ast := Condition(TagId, OpEq, JStr("00000000-0000-0000-0000-000000000000"));
    assert Conditions(ast) == [ast];
    ZeroUuid();
    assert ast in Conditions(ast) && IsTagOrAreaEquality(ast);
    AcceptedFiltersRun(ast, ticket, world, dates);
  }

  // ---------------------------------------------------------- placeholder order

  // The numbers a, a + 1, ... of which there are k.
  function Upto(a: nat, k: nat): (r: seq<nat>)
    ensures |r| == k
  {
    seq(k, i requires 0 <= i < k => a + i)
  }

  lemma {:induction false} PlaceholderTokensInOrder(a: nat, k: nat, rest: List<Token>)
    requires k > 0
    ensures Placeholders(PlaceholderTokens(a, k, rest)) == Upto(a, k) + Placeholders(rest)
    decreases k
  {
    if k > 1 {
      PlaceholderTokensInOrder(a + 1, k - 1, rest);
      assert Upto(a, k) == [a] + Upto(a + 1, k - 1);
    }
  }

  lemma ColumnHasNoPlaceholders(name: ColumnName, rest: List<Token>)
    ensures Placeholders(ColumnTokens(name, rest)) == Placeholders(rest)
  {
    assert Placeholders(Cons(Dot, Cons(Name(name.column), rest))) == Placeholders(Cons(Name(name.column), rest));
  }

  lemma ExistsHasNoPlaceholders(join: ExistsJoin, rest: List<Token>)
    ensures Placeholders(ExistsTokens(join, rest)) == Placeholders(rest)
  {
    var id := ColumnTokens(ColumnName("tickets", "id"), rest);
    ColumnHasNoPlaceholders(ColumnName("tickets", "id"), rest);
    var left := ColumnTokens(ColumnName(join.table, join.joinColumn), Cons(Compare(CmpEq), id));
    ColumnHasNoPlaceholders(ColumnName(join.table, join.joinColumn), Cons(Compare(CmpEq), id));
    assert Placeholders(left) == Placeholders(rest);
    var from := Cons(Name(join.table), Cons(KwWhere, left));
    assert Placeholders(from) == Placeholders(rest);
    var select := Cons(Number(1), Cons(KwFrom, from));
    assert Placeholders(select) == Placeholders(rest);
    var open := Cons(LParen, Cons(KwSelect, select));
    assert Placeholders(open) == Placeholders(rest);
  }

  lemma ExistsInPlaceholders(join: ExistsJoin, n: nat, k: nat, rest: List<Token>)
    requires k > 0
    ensures Placeholders(ExistsInTokens(join, n, k, rest)) == Upto(n + 1, k) + Placeholders(rest)
  {
    var close := Cons(RParen, Cons(RParen, rest));
    var list := PlaceholderTokens(n + 1, k, close);
    PlaceholderTokensInOrder(n + 1, k, close);
    assert Placeholders(close) == Placeholders(rest);
    var name, tail := ColumnName(join.table, join.valueColumn), Cons(KwIn, Cons(LParen, list));
    assert Placeholders(tail) == Placeholders(list);
    ColumnHasNoPlaceholders(name, tail);
    ExistsHasNoPlaceholders(join, Cons(KwAnd, ColumnTokens(name, tail)));
  }

  lemma MembershipPlaceholders(c: FilterNode, n: nat, entry: FieldEntry, name: ColumnName, rest: List<Token>)
    requires c.Condition? && (c.operator == OpIn || c.operator == OpNotIn) && Arity(c) > 0
    ensures Placeholders(ConditionTokens(c, n, entry, name, rest)) == Upto(n + 1, Arity(c)) + Placeholders(rest)
  {
    match entry.join
    case Some(join) => ExistsInPlaceholders(join, n, Arity(c), rest);
    case None =>
      var list := PlaceholderTokens(n + 1, Arity(c), Cons(RParen, rest));
      PlaceholderTokensInOrder(n + 1, Arity(c), Cons(RParen, rest));
      var isIn := Cons(KwIn, Cons(LParen, list));
      assert Placeholders(isIn) == Placeholders(list);
      ColumnHasNoPlaceholders(name, isIn);
      ColumnHasNoPlaceholders(name, Cons(KwNot, isIn));
  }

  lemma NullCheckPlaceholders(c: FilterNode, n: nat, entry: FieldEntry, name: ColumnName, rest: List<Token>)
    requires c.Condition? && (c.operator == OpIsNull || c.operator == OpIsNotNull)
    ensures Placeholders(ConditionTokens(c, n, entry, name, rest)) == Placeholders(rest)
  {
    match entry.join
    case Some(join) => ExistsHasNoPlaceholders(join, Cons(RParen, rest));
    case None =>
      var isNull := Cons(KwNull, rest);
      ColumnHasNoPlaceholders(name, Cons(KwIs, isNull));
      ColumnHasNoPlaceholders(name, Cons(KwIs, Cons(KwNot, isNull)));
      assert Placeholders(Cons(KwNot, isNull)) == Placeholders(rest);
  }

  lemma ConditionPlaceholders(c: FilterNode, n: nat, entry: FieldEntry, name: ColumnName, rest: List<Token>)
    requires c.Condition? && (c.operator == OpIn || c.operator == OpNotIn ==> Arity(c) > 0)
    ensures Placeholders(ConditionTokens(c, n, entry, name, rest)) == Upto(n + 1, Arity(c)) + Placeholders(rest)
  {
    if c.operator == OpIsNull || c.operator == OpIsNotNull {
      NullCheckPlaceholders(c, n, entry, name, rest);
    } else if c.operator == OpIn || c.operator == OpNotIn {
      MembershipPlaceholders(c, n, entry, name, rest);
    } else {
      ComparisonPlaceholders(c, n, entry, name, rest);
    }
  }

  lemma ComparisonPlaceholders(c: FilterNode, n: nat, entry: FieldEntry, name: ColumnName, rest: List<Token>)
    requires c.Condition? && c.operator !in {OpIsNull, OpIsNotNull, OpIn, OpNotIn}
    ensures Placeholders(ConditionTokens(c, n, entry, name, rest)) == Upto(n + 1, Arity(c)) + Placeholders(rest)
  {
    var tail := ConditionTokens(c, n, entry, name, rest).tail.tail.tail;
    ColumnHasNoPlaceholders(name, tail);
    if c.operator == OpBetween {
      assert Placeholders(Cons(KwAnd, Cons(Placeholder(n + 2), rest))) == [n + 2] + Placeholders(rest);
    }
  }

  lemma ConditionNodePlaceholders(c: FilterNode, n: nat, catalog: Catalog, naming: Naming, rest: List<Token>)
    requires c.Condition? && CompileCondition(c, n, catalog).Ok?
    ensures Placeholders(NodeTokens(c, n, catalog, naming, rest)) == Upto(n + 1, Arity(c)) + Placeholders(rest)
  {
    ConditionPlaceholders(c, n, catalog.lookup(c.field).value, naming(c.field), rest);
  }

  lemma {:induction false} NodePlaceholders(node: FilterNode, n: nat, catalog: Catalog, naming: Naming,
                                            compiled: Compiled, rest: List<Token>)
    requires CompileNode(node, n, catalog) == Ok(compiled)
    ensures Placeholders(NodeTokens(node, n, catalog, naming, rest)) ==
            Upto(n + 1, NodeArity(node)) + Placeholders(rest)
    decreases node, 1
  {
    hide FilterCompile.CompileCondition;
    match node
    case Condition(_, _, _) => ConditionNodePlaceholders(node, n, catalog, naming, rest);
    case Group(op, children) =>
      if children != [] {
        forall i | 0 <= i < |children|
          ensures ChildNumbered(children, i, n, catalog, naming)
        {
          FirstPlaceholders(children, i, n, catalog, naming);
        }
        ChildPlaceholders(children, 0, n, op, catalog, naming, Cons(RParen, rest), NodeArity(node));
      }
  }

  // A node's placeholders number on from m, whatever follows it.
  ghost predicate Numbered(node: FilterNode, m: nat, catalog: Catalog, naming: Naming) {
    forall rest ::
      Placeholders(NodeTokens(node, m, catalog, naming, rest)) == Upto(m + 1, NodeArity(node)) + Placeholders(rest)
  }

  lemma {:induction false} NumberedAnywhere(node: FilterNode, m: nat, catalog: Catalog, naming: Naming,
                                            compiled: Compiled)
    requires CompileNode(node, m, catalog) == Ok(compiled)
    ensures Numbered(node, m, catalog, naming)
    decreases node, 2
  {
    forall rest
      ensures Placeholders(NodeTokens(node, m, catalog, naming, rest)) ==
              Upto(m + 1, NodeArity(node)) + Placeholders(rest)
    {
      NodePlaceholders(node, m, catalog, naming, compiled, rest);
    }
  }

  ghost predicate ChildNumbered(children: seq<FilterNode>, i: nat, n: nat, catalog: Catalog, naming: Naming)
    requires i < |children|
  {
    Numbered(children[i], n + Offset(children, i), catalog, naming)
  }

  lemma {:induction false} FirstPlaceholders(children: seq<FilterNode>, i: nat, n: nat, catalog: Catalog,
                                             naming: Naming)
    requires i < |children| && CompileChildren(children, |children|, n, catalog).Ok?
    ensures ChildNumbered(children, i, n, catalog, naming)
    decreases children[i], 3
  {
    hide FilterCompile.CompileCondition;
    var child := ChildSucceeds(children, i, n, catalog);
    NumberedAnywhere(children[i], n + Offset(children, i), catalog, naming, child);
  }

  // A numbered piece, a joiner, and a piece that numbers on.
  lemma NumberedThen(node: FilterNode, m: nat, catalog: Catalog, naming: Naming, op: GroupOp, more: List<Token>,
                     k: nat, rest: seq<nat>)
    requires Numbered(node, m, catalog, naming)
    requires Placeholders(more) == Upto(m + NodeArity(node) + 1, k) + rest
    ensures Placeholders(NodeTokens(node, m, catalog, naming, Cons(Joiner(op), more))) ==
            Upto(m + 1, NodeArity(node) + k) + rest
  {
    hide CompileTokens.ConditionTokens;
    assert Placeholders(Cons(Joiner(op), more)) == Placeholders(more);
    UptoConcat(m + 1, NodeArity(node), k, rest);
  }

  // The children from the i-th on bind the m parameters that are left.
  lemma {:induction false} ChildPlaceholders(children: seq<FilterNode>, i: nat, n: nat, op: GroupOp, catalog: Catalog,
                                             naming: Naming, rest: List<Token>, m: nat)
    requires i < |children| && forall j :: 0 <= j < |children| ==> ChildNumbered(children, j, n, catalog, naming)
    requires Offset(children, i) + m == Offset(children, |children|)
    ensures Placeholders(ChildTokens(children, i, n, op, catalog, naming, rest)) ==
            Upto(n + Offset(children, i) + 1, m) + Placeholders(rest)
    decreases |children| - i
  {
    hide Placeholders, CompileTokens.ChildTokens, ChildNumbered;
    assert ChildNumbered(children, i, n, catalog, naming);
    if i + 1 == |children| {
      LastPlaceholders(children, n, op, catalog, naming, rest);
    } else {
      OffsetGrows(children, i + 1, |children|);
      ChildPlaceholders(children, i + 1, n, op, catalog, naming, rest, m - NodeArity(children[i]));
      StepPlaceholders(children, i, n, op, catalog, naming, rest, m - NodeArity(children[i]));
    }
  }

  lemma StepPlaceholders(children: seq<FilterNode>, i: nat, n: nat, op: GroupOp, catalog: Catalog, naming: Naming,
                         rest: List<Token>, k: nat)
    requires i + 1 < |children| && ChildNumbered(children, i, n, catalog, naming)
    requires Placeholders(ChildTokens(children, i + 1, n, op, catalog, naming, rest)) ==
             Upto(n + Offset(children, i) + NodeArity(children[i]) + 1, k) + Placeholders(rest)
    ensures Placeholders(ChildTokens(children, i, n, op, catalog, naming, rest)) ==
            Upto(n + Offset(children, i) + 1, NodeArity(children[i]) + k) + Placeholders(rest)
  {
    hide CompileTokens.ConditionTokens;
    ChildTokensStep(children, i, n, op, catalog, naming, rest);
    NumberedThen(children[i], n + Offset(children, i), catalog, naming, op,
                 ChildTokens(children, i + 1, n, op, catalog, naming, rest), k, Placeholders(rest));
  }

  lemma LastPlaceholders(children: seq<FilterNode>, n: nat, op: GroupOp, catalog: Catalog, naming: Naming,
                         rest: List<Token>)
    requires children != [] && ChildNumbered(children, |children| - 1, n, catalog, naming)
    ensures var i := |children| - 1;
      Placeholders(ChildTokens(children, i, n, op, catalog, naming, rest)) ==
        Upto(n + Offset(children, i) + 1, NodeArity(children[i])) + Placeholders(rest) &&
      Offset(children, |children|) == Offset(children, i) + NodeArity(children[i])
  {
    hide CompileTokens.ConditionTokens;
    LastTokens(children, n, op, catalog, naming, rest);
  }

  lemma LastTokens(children: seq<FilterNode>, n: nat, op: GroupOp, catalog: Catalog, naming: Naming, rest: List<Token>)
    requires children != []
    ensures var i := |children| - 1;
      ChildTokens(children, i, n, op, catalog, naming, rest) ==
        NodeTokens(children[i], n + Offset(children, i), catalog, naming, rest) &&
      Offset(children, |children|) == Offset(children, i) + NodeArity(children[i])
  {
  }

  lemma ChildTokensStep(children: seq<FilterNode>, i: nat, n: nat, op: GroupOp, catalog: Catalog, naming: Naming,
                        rest: List<Token>)
    requires i + 1 < |children|
    ensures ChildTokens(children, i, n, op, catalog, naming, rest) ==
            NodeTokens(children[i], n + Offset(children, i), catalog, naming,
                       Cons(Joiner(op), ChildTokens(children, i + 1, n, op, catalog, naming, rest)))
    ensures Offset(children, i + 1) == Offset(children, i) + NodeArity(children[i])
  {
  }

  lemma UptoConcat(a: nat, k: nat, m: nat, rest: seq<nat>)
    ensures Upto(a, k + m) + rest == Upto(a, k) + (Upto(a + k, m) + rest)
  {
  }

  lemma TokensInOrder(ast: FilterNode, catalog: Catalog, naming: Naming, compiled: Compiled)
    requires CompileNode(ast, 0, catalog) == Ok(compiled)
    ensures Placeholders(NodeTokens(ast, 0, catalog, naming, Nil)) == Upto(1, |compiled.params|)
  {
    NodePlaceholders(ast, 0, catalog, naming, compiled, Nil);
    ArityIsParams(ast, 0, catalog);
    assert Upto(1, NodeArity(ast)) + [] == Upto(1, NodeArity(ast));
  }

  // In the printed text $1, ..., $n occur once each and in order, n being the
  // number of parameters.
  lemma PlaceholdersOnceInOrder(ast: FilterNode, catalog: Catalog, naming: Naming, compiled: Compiled)
    requires CatalogNames(catalog, naming) && CompileNode(ast, 0, catalog) == Ok(compiled)
    ensures Lex(compiled.sql).Some? && Placeholders(Lex(compiled.sql).value) == Upto(1, |compiled.params|)
  {
    TokensInOrder(ast, catalog, naming, compiled);
    CompileText.CompiledTextLexes(ast, 0, catalog, naming);
  }

  // ------------------------------------------------------ values and SQL text

  // Same tree, fields, operators and array lengths; any values.
  predicate SameShape(a: FilterNode, b: FilterNode)
    decreases a
  {
    match (a, b)
    case (Condition(_, _, _), Condition(_, _, _)) =>
      a.field == b.field && a.operator == b.operator && Arity(a) == Arity(b)
    case (Group(op, children), Group(op', children')) =>
      op == op' && |children| == |children'| &&
      forall i :: 0 <= i < |children| ==> SameShape(children[i], children'[i])
    case _ => false
  }

  lemma {:induction false} ShapeDecidesText(a: FilterNode, b: FilterNode, n: nat, catalog: Catalog, ca: Compiled,
                                            cb: Compiled)
    requires SameShape(a, b)
    requires CompileNode(a, n, catalog) == Ok(ca) && CompileNode(b, n, catalog) == Ok(cb)
    ensures ca.sql == cb.sql && |ca.params| == |cb.params|
    decreases a, 1
  {
    match a
    case Condition(_, _, _) =>
      ConditionShape(a, b, n, catalog);
    case Group(op, children) =>
      if children != [] {
        var pa := CompileChildren(children, |children|, n, catalog).value;
        var pb := CompileChildren(b.children, |children|, n, catalog).value;
        ShapeDecidesTexts(children, b.children, |children|, n, catalog, pa, pb);
      }
  }

  lemma ConditionShape(a: FilterNode, b: FilterNode, n: nat, catalog: Catalog)
    requires a.Condition? && b.Condition? && SameShape(a, b)
    requires CompileCondition(a, n, catalog).Ok? && CompileCondition(b, n, catalog).Ok?
    ensures var ca, cb := CompileCondition(a, n, catalog).value, CompileCondition(b, n, catalog).value;
      ca.sql == cb.sql && |ca.params| == |cb.params|
  {
    ConditionArity(a, n, catalog);
    ConditionArity(b, n, catalog);
  }

  lemma {:induction false} ShapeDecidesTexts(xs: seq<FilterNode>, ys: seq<FilterNode>, k: nat, n: nat,
                                             catalog: Catalog, pa: Parts, pb: Parts)
    requires k <= |xs| == |ys| && forall i :: 0 <= i < |xs| ==> SameShape(xs[i], ys[i])
    requires CompileChildren(xs, k, n, catalog) == Ok(pa) && CompileChildren(ys, k, n, catalog) == Ok(pb)
    ensures pa.texts == pb.texts && |pa.params| == |pb.params|
    decreases xs, k
  {
    hide FilterCompile.CompileCondition;
    if k > 0 {
      var before, last := LastPart(xs, k, n, catalog, pa);
      var before', last' := LastPart(ys, k, n, catalog, pb);
      ShapeDecidesTexts(xs, ys, k - 1, n, catalog, before, before');
      ShapeDecidesText(xs[k - 1], ys[k - 1], n + |before.params|, catalog, last, last');
    }
  }

  // Two accepted filters of the same shape compile to the same text.
  lemma ValuesNeverShapeSql(a: FilterNode, b: FilterNode, dates: Dates)
    requires Valid(a, StandardCatalog(dates)) && Valid(b, StandardCatalog(dates)) && SameShape(a, b)
    ensures var ca, cb := CompileNode(a, 0, StandardCatalog(dates)), CompileNode(b, 0, StandardCatalog(dates));
      ca.Ok? && cb.Ok? && ca.value.sql == cb.value.sql && |ca.value.params| == |cb.value.params|
  {
    var catalog := StandardCatalog(dates);
    StandardCatalogIsSound(dates);
    ValidCompiles(a, 0, catalog, StandardNaming);
    ValidCompiles(b, 0, catalog, StandardNaming);
    ShapeDecidesText(a, b, 0, catalog, CompileNode(a, 0, catalog).value, CompileNode(b, 0, catalog).value);
  }
}
