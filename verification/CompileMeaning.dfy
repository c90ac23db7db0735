/**
 * Compiling preserves meaning: the printed text, parsed and evaluated with the
 * bound parameters, answers what the filter means on every ticket.
 */
module CompileMeaning {
  import opened Basics
  import opened Json
  import opened FilterAst
  import opened FieldRegistry
  import opened FilterCompile
  import opened SqlSyntax
  import opened SqlSemantics
  import opened CompileTokens
  import opened FilterMeaning
  import opened FilterValidate
  import CompileParse
  import LikePattern

  // The value schemas of an entry fit its SQL type and operators.
  ghost predicate Typed(entry: FieldEntry) {
    (forall op :: op in entry.allowed ==> !op.OtherOperator?) &&
    (OpContains in entry.allowed ==> entry.scalarSchema.TextSchema?) &&
    (entry.sqlType == TimestampType ==>
      entry.scalarSchema == DateSchema && entry.rangeSchema == Some(PairSchema(DateSchema)) &&
      OpIn !in entry.allowed && OpNotIn !in entry.allowed)
  }

  ghost predicate SoundCatalog(catalog: Catalog, naming: Naming) {
    CatalogNames(catalog, naming) && forall f :: catalog.lookup(f).Some? ==> Typed(catalog.lookup(f).value)
  }

  // ------------------------------------------------------------- compilability

  predicate ResolvableItems(v: Json, sqlType: SqlType, dates: Dates) {
    v.JArr? && v.items != [] && forall i :: 0 <= i < |v.items| ==> Resolvable(v.items[i], sqlType, dates)
  }

  predicate Resolvable(v: Json, sqlType: SqlType, dates: Dates) {
    sqlType == TimestampType ==> v.JStr? && IsDate(v.s, dates)
  }

  // Exactly what a condition needs for the compiler not to throw.
  predicate Compilable(c: FilterNode, catalog: Catalog)
    requires c.Condition?
  {
    var entry := catalog.lookup(c.field);
    entry.Some? && c.operator in entry.value.allowed &&
    match c.operator
    case OpIsNull => true
    case OpIsNotNull => true
    case OpIn => ResolvableItems(c.value, entry.value.sqlType, catalog.dates)
    case OpNotIn => ResolvableItems(c.value, entry.value.sqlType, catalog.dates)
    case OpBetween => ResolvableItems(c.value, entry.value.sqlType, catalog.dates) && |c.value.items| == 2
    case OpContains => c.value.JStr?
    case OtherOperator(_) => false
    case _ => Resolvable(c.value, entry.value.sqlType, catalog.dates)
  }

  lemma ConditionCompilesIff(c: FilterNode, n: nat, catalog: Catalog)
    requires c.Condition?
    ensures CompileCondition(c, n, catalog).Ok? <==> Compilable(c, catalog)
  {
    var entry := catalog.lookup(c.field);
    if entry.Some? && c.value.JArr? {
      var r := ResolveValues(c.value.items, entry.value.sqlType, catalog.dates);
      assert r.Ok? <==> forall i :: 0 <= i < |c.value.items| ==>
        Resolvable(c.value.items[i], entry.value.sqlType, catalog.dates);
    }
  }

  // A filter compiles exactly when each of its conditions does, at any depth.
  lemma {:induction false} CompilesIff(node: FilterNode, n: nat, catalog: Catalog)
    ensures CompileNode(node, n, catalog).Ok? <==> forall c :: c in Conditions(node) ==> Compilable(c, catalog)
    decreases node
  {
    match node
    case Condition(_, _, _) =>
      ConditionCompilesIff(node, n, catalog);
      assert node in Conditions(node);
    case Group(_, children) =>
      ChildrenCompileIff(children, |children|, n, catalog);
      assert children[..|children|] == children;
  }

  lemma {:induction false} ChildrenCompileIff(children: seq<FilterNode>, k: nat, n: nat, catalog: Catalog)
    requires k <= |children|
    ensures CompileChildren(children, k, n, catalog).Ok? <==>
            forall c :: c in ConditionsOf(children[..k]) ==> Compilable(c, catalog)
    decreases children, k
  {
    hide FilterCompile.CompileCondition;
    if k > 0 {
      ChildrenCompileIff(children, k - 1, n, catalog);
      ConditionsOfLast(children, k);
      var before := CompileChildren(children, k - 1, n, catalog);
      if before.Ok? {
        CompilesIff(children[k - 1], n + |before.value.params|, catalog);
      }
    }
  }

  lemma WellFormedCompiles(c: FilterNode, catalog: Catalog)
    requires c.Condition? && WellFormed(c, catalog)
    requires Typed(catalog.lookup(c.field).value)
    ensures Compilable(c, catalog)
  {
    if c.operator == OpBetween && catalog.lookup(c.field).value.sqlType == TimestampType {
      assert forall i :: 0 <= i < |c.value.items| ==> Accepts(DateSchema, c.value.items[i], catalog.dates);
    }
  }

  // Validation is enough for compilation: no throw is reached.
  lemma ValidCompiles(ast: FilterNode, n: nat, catalog: Catalog, naming: Naming)
    requires SoundCatalog(catalog, naming) && Valid(ast, catalog)
    ensures CompileNode(ast, n, catalog).Ok?
  {
    forall c | c in Conditions(ast)
      ensures Compilable(c, catalog)
    {
      WellFormedCompiles(c, catalog);
    }
    CompilesIff(ast, n, catalog);
  }

  // ------------------------------------------------------------ name resolution

  // A field of a related table under an operator that is not compiled to EXISTS:
  // its column is printed bare.
  predicate PrintsBareRelation(c: FilterNode, catalog: Catalog)
    requires c.Condition?
  {
    var entry := catalog.lookup(c.field);
    entry.Some? && entry.value.join.Some? &&
    c.operator !in {OpIsNull, OpIsNotNull, OpIn, OpNotIn}
  }

  ghost predicate HasBareRelation(node: FilterNode, catalog: Catalog) {
    exists c :: c in Conditions(node) && PrintsBareRelation(c, catalog)
  }

  predicate NoneBare(cs: seq<FilterNode>, catalog: Catalog)
    requires forall c :: c in cs ==> c.Condition?
  {
    forall c :: c in cs ==> !PrintsBareRelation(c, catalog)
  }

  lemma {:induction false} PlaceholdersResolve(a: nat, k: nat, tables: set<string>, n: nat)
    requires k > 0 && 1 <= a && a + k <= n + 1
    ensures OperandsResolve(ParamOperands(a, k), tables, n)
    decreases k
  {
    if k > 1 {
      PlaceholdersResolve(a + 1, k - 1, tables, n);
    }
  }

  lemma ExistsInResolves(join: ExistsJoin, n: nat, k: nat, total: nat)
    requires k > 0 && n + k <= total
    ensures Resolves(ExistsInExpr(join, n, k), {"tickets"}, total)
  {
    var tables := {"tickets"} + {join.table};
    PlaceholdersResolve(n + 1, k, tables, total);
    assert Resolves(ExistsFilter(join), tables, total);
    assert Resolves(In(Column(join.table, join.valueColumn), ParamOperands(n + 1, k)), tables, total);
  }

  lemma ConditionResolves(c: FilterNode, n: nat, total: nat, catalog: Catalog, naming: Naming)
    requires c.Condition? && SoundCatalog(catalog, naming) && CompileCondition(c, n, catalog).Ok?
    requires n + Arity(c) <= total
    ensures Resolves(ConditionExpr(c, n, catalog.lookup(c.field).value, naming(c.field)), {"tickets"}, total) <==>
            !PrintsBareRelation(c, catalog)
  {
    var entry := catalog.lookup(c.field).value;
    assert NamesColumn(entry, naming(c.field));
    if c.operator == OpIn || c.operator == OpNotIn {
      MembershipResolves(c, n, total, entry, naming(c.field));
    } else if c.operator == OpIsNull || c.operator == OpIsNotNull {
      NullCheckResolves(c, n, total, entry, naming(c.field));
    }
  }

  lemma MembershipResolves(c: FilterNode, n: nat, total: nat, entry: FieldEntry, name: ColumnName)
    requires c.Condition? && (c.operator == OpIn || c.operator == OpNotIn) && Arity(c) > 0 && n + Arity(c) <= total
    requires entry.join.None? ==> name.table == "tickets"
    ensures Resolves(ConditionExpr(c, n, entry, name), {"tickets"}, total)
  {
    match entry.join
    case Some(join) => ExistsInResolves(join, n, Arity(c), total);
    case None => PlaceholdersResolve(n + 1, Arity(c), {"tickets"}, total);
  }

  lemma NullCheckResolves(c: FilterNode, n: nat, total: nat, entry: FieldEntry, name: ColumnName)
    requires c.Condition? && (c.operator == OpIsNull || c.operator == OpIsNotNull)
    requires entry.join.None? ==> name.table == "tickets"
    ensures Resolves(ConditionExpr(c, n, entry, name), {"tickets"}, total)
  {
    if entry.join.Some? {
      assert Resolves(ExistsFilter(entry.join.value), {"tickets"} + {entry.join.value.table}, total);
    }
  }

  lemma {:induction false} NodeResolves(node: FilterNode, n: nat, total: nat, catalog: Catalog, naming: Naming,
                                        compiled: Compiled)
    requires SoundCatalog(catalog, naming) && CompileNode(node, n, catalog) == Ok(compiled)
    requires n + NodeArity(node) <= total
    ensures Resolves(NodeExpr(node, n, catalog, naming), {"tickets"}, total) <==> !HasBareRelation(node, catalog)
    decreases node, 0
  {
    match node
    case Condition(_, _, _) =>
      ConditionResolves(node, n, total, catalog, naming);
      assert Conditions(node) == [node];
    case Group(op, children) =>
      if children != [] {
        forall i | 0 <= i < |children|
          ensures ChildNames(children, i, n, total, catalog, naming)
        {
          OffsetFits(children, i);
          ChildResolves(children, i, n, total, catalog, naming);
        }
        ChainResolves(children, |children|, n, total, op, catalog, naming);
        assert children[..|children|] == children;
      }
  }

  lemma {:induction false} OffsetFits(children: seq<FilterNode>, i: nat)
    requires i < |children|
    ensures Offset(children, i) + NodeArity(children[i]) <= Offset(children, |children|)
  {
    OffsetGrows(children, i + 1, |children|);
  }

  // A child's names are in scope exactly when it prints no bare related column.
  ghost predicate ChildNames(children: seq<FilterNode>, i: nat, n: nat, total: nat, catalog: Catalog, naming: Naming)
    requires i < |children|
  {
    Resolves(NodeExpr(children[i], n + Offset(children, i), catalog, naming), {"tickets"}, total) <==>
    NoneBare(Conditions(children[i]), catalog)
  }

  lemma {:induction false} ChildResolves(children: seq<FilterNode>, i: nat, n: nat, total: nat, catalog: Catalog,
                                         naming: Naming)
    requires i < |children|
    requires SoundCatalog(catalog, naming) && CompileChildren(children, |children|, n, catalog).Ok?
    requires n + Offset(children, i) + NodeArity(children[i]) <= total
    ensures ChildNames(children, i, n, total, catalog, naming)
    decreases children[i], 2
  {
    var child := ChildSucceeds(children, i, n, catalog);
    NodeResolves(children[i], n + Offset(children, i), total, catalog, naming, child);
    NoneBareIn(children[i], catalog);
  }

  lemma {:induction false} ChainResolves(children: seq<FilterNode>, k: nat, n: nat, total: nat, op: GroupOp,
                                         catalog: Catalog, naming: Naming)
    requires 0 < k <= |children|
    requires forall i :: 0 <= i < k ==> ChildNames(children, i, n, total, catalog, naming)
    ensures Resolves(ChainExpr(children, k, n, op, catalog, naming), {"tickets"}, total) <==>
            NoneBare(ConditionsOf(children[..k]), catalog)
    decreases k
  {
    assert ChildNames(children, k - 1, n, total, catalog, naming);
    ConditionsOfLast(children, k);
    NoneBareConcat(ConditionsOf(children[..k - 1]), Conditions(children[k - 1]), catalog);
    if k > 1 {
      ChainResolves(children, k - 1, n, total, op, catalog, naming);
    }
  }

  lemma NoneBareIn(node: FilterNode, catalog: Catalog)
    ensures NoneBare(Conditions(node), catalog) <==> !HasBareRelation(node, catalog)
  {
  }

  lemma NoneBareConcat(a: seq<FilterNode>, b: seq<FilterNode>, catalog: Catalog)
    requires (forall c :: c in a ==> c.Condition?) && forall c :: c in b ==> c.Condition?
    ensures NoneBare(a + b, catalog) <==> NoneBare(a, catalog) && NoneBare(b, catalog)
  {
  }

  // ------------------------------------------------------------------- meaning

  predicate IsTime(sqlType: SqlType) {
    sqlType == TimestampType
  }

  function PlaceOf(join: ExistsJoin): Place {
    InRelated(join.table, join.joinColumn, join.valueColumn)
  }

  // An entry of the catalog keeps what users know of its field.
  predicate Keeps(entry: FieldEntry, name: ColumnName, attribute: Attribute) {
    attribute.isTime == IsTime(entry.sqlType) &&
    attribute.place == match entry.join
                       case Some(join) => PlaceOf(join)
                       case None => OnTicket(name.column)
  }

  ghost predicate KeepsAll(catalog: Catalog, naming: Naming, attributes: Attributes) {
    forall f :: catalog.lookup(f).Some? ==>
      attributes(f).Some? && Keeps(catalog.lookup(f).value, naming(f), attributes(f).value)
  }

  lemma ResolvedDenotes(v: Json, sqlType: SqlType, dates: Dates)
    requires ResolveScalar(v, sqlType, dates).Ok?
    ensures ParamValue(ResolveScalar(v, sqlType, dates).value) == Denotes(v, IsTime(sqlType), dates)
  {
  }

  lemma EqualsFirst(x: SqlValue, vs: seq<Json>, isTime: bool, dates: Dates)
    requires vs != []
    ensures AnyTrue(EqualsEach(x, vs, isTime, dates)) ==
            Or3(Compare3(CmpEq, x, Denotes(vs[0], isTime, dates)), AnyTrue(EqualsEach(x, vs[1..], isTime, dates)))
  {
    var head, rest := Compare3(CmpEq, x, Denotes(vs[0], isTime, dates)), EqualsEach(x, vs[1..], isTime, dates);
    assert EqualsEach(x, vs, isTime, dates) == [head] + rest;
    AnyTrueFirst(head, rest);
  }

  lemma {:induction false} InMeansAny(x: SqlValue, a: nat, vs: seq<Json>, ps: seq<Param>, sqlType: SqlType,
                                      dates: Dates, scope: Scope, params: seq<Param>)
    requires vs != [] && ResolveValues(vs, sqlType, dates) == Ok(ps)
    requires IsSlice(params, a, ps)
    ensures In3(x, ParamOperands(a + 1, |vs|), scope, params) == AnyTrue(EqualsEach(x, vs, IsTime(sqlType), dates))
    decreases |vs|
  {
    FirstMeans(a, vs, ps, sqlType, dates, scope, params);
    EqualsFirst(x, vs, IsTime(sqlType), dates);
    if |vs| > 1 {
      assert ps[1..] == params[a + 1..a + 1 + |ps[1..]|];
      InMeansAny(x, a + 1, vs[1..], ps[1..], sqlType, dates, scope, params);
    } else {
      assert EqualsEach(x, vs[1..], IsTime(sqlType), dates) == [];
    }
  }

  // The first bound value is the first value of the list.
  lemma FirstMeans(a: nat, vs: seq<Json>, ps: seq<Param>, sqlType: SqlType, dates: Dates, scope: Scope,
                   params: seq<Param>)
    requires vs != [] && ResolveValues(vs, sqlType, dates) == Ok(ps)
    requires IsSlice(params, a, ps)
    ensures OperandValue(Param(a + 1), scope, params) == Denotes(vs[0], IsTime(sqlType), dates)
    ensures ps != [] && ResolveValues(vs[1..], sqlType, dates) == Ok(ps[1..])
  {
    assert params[a] == ps[0];
    ResolvedDenotes(vs[0], sqlType, dates);
  }

  lemma ExistsInMeans(join: ExistsJoin, n: nat, vs: seq<Json>, ps: seq<Param>, sqlType: SqlType, dates: Dates,
                      ticket: Row, world: World, params: seq<Param>)
    requires join.table != "tickets" && vs != []
    requires ResolveValues(vs, sqlType, dates) == Ok(ps) && IsSlice(params, n, ps)
    ensures Eval(ExistsInExpr(join, n, |vs|), world, map["tickets" := ticket], params) ==
            Tri3(SomeRelatedIn(PlaceOf(join), ticket, world, vs, IsTime(sqlType), dates))
  {
    var rows := TableRows(world, join.table);
    var filter := ExistsInFilter(join, n, |vs|);
    forall i | 0 <= i < |rows|
      ensures Eval(filter, world, map["tickets" := ticket][join.table := rows[i]], params) == Yes <==>
              IsRelatedIn(rows[i], PlaceOf(join), ticket, vs, IsTime(sqlType), dates)
    {
      RowInMeans(join, n, vs, ps, sqlType, dates, ticket, rows[i], world, params);
    }
  }

  function ExistsInFilter(join: ExistsJoin, n: nat, k: nat): Expr
    requires k > 0
  {
    And(ExistsFilter(join), In(Column(join.table, join.valueColumn), ParamOperands(n + 1, k)))
  }

  lemma RowInMeans(join: ExistsJoin, n: nat, vs: seq<Json>, ps: seq<Param>, sqlType: SqlType, dates: Dates,
                   ticket: Row, row: Row, world: World, params: seq<Param>)
    requires join.table != "tickets" && vs != []
    requires ResolveValues(vs, sqlType, dates) == Ok(ps) && IsSlice(params, n, ps)
    ensures Eval(ExistsInFilter(join, n, |vs|), world, map["tickets" := ticket][join.table := row], params) == Yes <==>
            IsRelatedIn(row, PlaceOf(join), ticket, vs, IsTime(sqlType), dates)
  {
    InMeansAny(Cell(row, join.valueColumn), n, vs, ps, sqlType, dates, map["tickets" := ticket][join.table := row],
               params);
  }

  lemma MembershipMeans(c: FilterNode, n: nat, ticket: Row, world: World, catalog: Catalog, naming: Naming,
                        attributes: Attributes, params: seq<Param>)
    requires c.Condition? && (c.operator == OpIn || c.operator == OpNotIn)
    requires SoundCatalog(catalog, naming) && KeepsAll(catalog, naming, attributes)
    requires CompileCondition(c, n, catalog).Ok?
    requires IsSlice(params, n, CompileCondition(c, n, catalog).value.params)
    ensures Eval(ConditionExpr(c, n, catalog.lookup(c.field).value, naming(c.field)), world, map["tickets" := ticket],
                 params) ==
            ConditionMeaning(c, ticket, world, attributes, catalog.dates)
  {
    var entry, name, vs := catalog.lookup(c.field).value, naming(c.field), c.value.items;
    var ps := CompileCondition(c, n, catalog).value.params;
    assert NamesColumn(entry, name);
    match entry.join
    case Some(join) => ExistsInMeans(join, n, vs, ps, entry.sqlType, catalog.dates, ticket, world, params);
    case None =>
      InMeansAny(Cell(ticket, name.column), n, vs, ps, entry.sqlType, catalog.dates, map["tickets" := ticket], params);
  }

  lemma ContainsMeans(c: FilterNode, n: nat, ticket: Row, world: World, catalog: Catalog, naming: Naming,
                      attributes: Attributes, params: seq<Param>)
    requires c.Condition? && c.operator == OpContains && LikePattern.KeepsWildcards(world.fold)
    requires SoundCatalog(catalog, naming) && KeepsAll(catalog, naming, attributes)
    requires CompileCondition(c, n, catalog).Ok? && !PrintsBareRelation(c, catalog)
    requires IsSlice(params, n, CompileCondition(c, n, catalog).value.params)
    ensures Eval(ConditionExpr(c, n, catalog.lookup(c.field).value, naming(c.field)), world, map["tickets" := ticket],
                 params) ==
            ConditionMeaning(c, ticket, world, attributes, catalog.dates)
  {
    assert NamesColumn(catalog.lookup(c.field).value, naming(c.field));
    assert params[n] == CompileCondition(c, n, catalog).value.params[0];
    var x := Cell(ticket, naming(c.field).column);
    if x.SqlText? {
      LikePattern.ContainsPatternFindsFoldedText(world.fold, x.s, c.value.s);
    }
  }

  lemma ComparesAlike(op: Operator, a: SqlValue, b: SqlValue)
    requires op in {OpEq, OpNeq, OpGt, OpGte, OpLt, OpLte}
    ensures Compare3(CompareOf(op), a, b) == Compared(op, a, b)
  {
  }

  lemma BetweenMeans(c: FilterNode, n: nat, ticket: Row, world: World, catalog: Catalog, naming: Naming,
                     attributes: Attributes, params: seq<Param>)
    requires c.Condition? && c.operator == OpBetween
    requires SoundCatalog(catalog, naming) && KeepsAll(catalog, naming, attributes)
    requires CompileCondition(c, n, catalog).Ok? && !PrintsBareRelation(c, catalog)
    requires IsSlice(params, n, CompileCondition(c, n, catalog).value.params)
    ensures Eval(ConditionExpr(c, n, catalog.lookup(c.field).value, naming(c.field)), world, map["tickets" := ticket],
                 params) ==
            ConditionMeaning(c, ticket, world, attributes, catalog.dates)
  {
    hide SqlSemantics.Compare3, FilterMeaning.Compared, FilterCompile.CompileMembership, FilterCompile.NullCheckSql;
    var entry, ps := catalog.lookup(c.field).value, CompileCondition(c, n, catalog).value.params;
    assert NamesColumn(entry, naming(c.field));
    assert params[n] == ps[0] && params[n + 1] == ps[1];
    ResolvedDenotes(c.value.items[0], entry.sqlType, catalog.dates);
    ResolvedDenotes(c.value.items[1], entry.sqlType, catalog.dates);
    var x := Cell(ticket, naming(c.field).column);
    ComparesAlike(OpGte, x, ParamValue(ps[0]));
    ComparesAlike(OpLte, x, ParamValue(ps[1]));
  }

  lemma ScalarMeans(c: FilterNode, n: nat, ticket: Row, world: World, catalog: Catalog, naming: Naming,
                    attributes: Attributes, params: seq<Param>)
    requires c.Condition? && c.operator !in {OpIsNull, OpIsNotNull, OpIn, OpNotIn, OpContains, OpBetween}
    requires SoundCatalog(catalog, naming) && KeepsAll(catalog, naming, attributes)
    requires CompileCondition(c, n, catalog).Ok? && !PrintsBareRelation(c, catalog)
    requires IsSlice(params, n, CompileCondition(c, n, catalog).value.params)
    ensures Eval(ConditionExpr(c, n, catalog.lookup(c.field).value, naming(c.field)), world, map["tickets" := ticket],
                 params) ==
            ConditionMeaning(c, ticket, world, attributes, catalog.dates)
  {
    hide SqlSemantics.Compare3, FilterMeaning.Compared;
    var entry, ps := catalog.lookup(c.field).value, CompileCondition(c, n, catalog).value.params;
    assert NamesColumn(entry, naming(c.field));
    assert params[n] == ps[0];
    ResolvedDenotes(c.value, entry.sqlType, catalog.dates);
    ComparesAlike(c.operator, Cell(ticket, naming(c.field).column), ParamValue(ps[0]));
  }

  lemma NullCheckMeans(c: FilterNode, n: nat, ticket: Row, world: World, catalog: Catalog, naming: Naming,
                       attributes: Attributes, params: seq<Param>)
    requires c.Condition? && (c.operator == OpIsNull || c.operator == OpIsNotNull)
    requires SoundCatalog(catalog, naming) && KeepsAll(catalog, naming, attributes)
    requires catalog.lookup(c.field).Some?
    ensures Eval(ConditionExpr(c, n, catalog.lookup(c.field).value, naming(c.field)), world, map["tickets" := ticket],
                 params) ==
            ConditionMeaning(c, ticket, world, attributes, catalog.dates)
  {
    var entry := catalog.lookup(c.field).value;
    assert NamesColumn(entry, naming(c.field));
    if entry.join.Some? {
      var join, scope: Scope := entry.join.value, map["tickets" := ticket];
      var rows := TableRows(world, join.table);
      forall i | 0 <= i < |rows|
        ensures Eval(ExistsFilter(join), world, scope[join.table := rows[i]], params) ==
                Compare3(CmpEq, Cell(rows[i], join.joinColumn), Cell(ticket, "id"))
      {
      }
      assert Eval(Exists(join.table, ExistsFilter(join)), world, scope, params) ==
             Tri3(SomeRelated(PlaceOf(join), ticket, world));
    }
  }

  lemma ConditionMeans(c: FilterNode, n: nat, ticket: Row, world: World, catalog: Catalog, naming: Naming,
                       attributes: Attributes, params: seq<Param>)
    requires c.Condition? && LikePattern.KeepsWildcards(world.fold)
    requires SoundCatalog(catalog, naming) && KeepsAll(catalog, naming, attributes)
    requires CompileCondition(c, n, catalog).Ok? && !PrintsBareRelation(c, catalog)
    requires IsSlice(params, n, CompileCondition(c, n, catalog).value.params)
    ensures Eval(ConditionExpr(c, n, catalog.lookup(c.field).value, naming(c.field)), world, map["tickets" := ticket],
                 params) ==
            ConditionMeaning(c, ticket, world, attributes, catalog.dates)
  {
    if c.operator == OpIsNull || c.operator == OpIsNotNull {
      NullCheckMeans(c, n, ticket, world, catalog, naming, attributes, params);
    } else if c.operator == OpIn || c.operator == OpNotIn {
      MembershipMeans(c, n, ticket, world, catalog, naming, attributes, params);
    } else if c.operator == OpContains {
      ContainsMeans(c, n, ticket, world, catalog, naming, attributes, params);
    } else if c.operator == OpBetween {
      BetweenMeans(c, n, ticket, world, catalog, naming, attributes, params);
    } else {
      ScalarMeans(c, n, ticket, world, catalog, naming, attributes, params);
    }
  }

  lemma {:induction false} NodeMeans(node: FilterNode, n: nat, ticket: Row, world: World, catalog: Catalog,
                                     naming: Naming, attributes: Attributes, compiled: Compiled, params: seq<Param>)
    requires LikePattern.KeepsWildcards(world.fold) && SoundCatalog(catalog, naming)
    requires KeepsAll(catalog, naming, attributes)
    requires CompileNode(node, n, catalog) == Ok(compiled) && !HasBareRelation(node, catalog)
    requires IsSlice(params, n, compiled.params)
    ensures Eval(NodeExpr(node, n, catalog, naming), world, map["tickets" := ticket], params) ==
            Meaning(node, ticket, world, attributes, catalog.dates)
    decreases node, 1
  {
    match node
    case Condition(_, _, _) =>
      assert node in Conditions(node);
      ConditionMeans(node, n, ticket, world, catalog, naming, attributes, params);
    case Group(op, children) =>
      if children != [] {
        forall i | 0 <= i < |children|
          ensures ChildAgrees(children, i, n, ticket, world, catalog, naming, attributes, params)
        {
          ChildMeans(children, i, n, ticket, world, catalog, naming, attributes, params);
        }
        ChainMeans(children, |children|, n, op, ticket, world, catalog, naming, attributes, params);
      }
  }

  ghost predicate ChildAgrees(children: seq<FilterNode>, i: nat, n: nat, ticket: Row, world: World, catalog: Catalog,
                              naming: Naming, attributes: Attributes, params: seq<Param>)
    requires i < |children|
  {
    Eval(NodeExpr(children[i], n + Offset(children, i), catalog, naming), world, map["tickets" := ticket], params) ==
    Meaning(children[i], ticket, world, attributes, catalog.dates)
  }

  lemma {:induction false} ChildMeans(children: seq<FilterNode>, i: nat, n: nat, ticket: Row, world: World,
                                      catalog: Catalog, naming: Naming, attributes: Attributes, params: seq<Param>)
    requires i < |children|
    requires LikePattern.KeepsWildcards(world.fold) && SoundCatalog(catalog, naming)
    requires KeepsAll(catalog, naming, attributes)
    requires CompileChildren(children, |children|, n, catalog).Ok?
    requires forall c :: c in ConditionsOf(children) ==> !PrintsBareRelation(c, catalog)
    requires IsSlice(params, n, CompileChildren(children, |children|, n, catalog).value.params)
    ensures ChildAgrees(children, i, n, ticket, world, catalog, naming, attributes, params)
    decreases children[i], 2
  {
    var child := ChildBound(children, i, n, catalog, CompileChildren(children, |children|, n, catalog).value, params);
    ChildHasNoBare(children, i, catalog);
    NodeMeans(children[i], n + Offset(children, i), ticket, world, catalog, naming, attributes, child, params);
  }

  lemma ChildBound(children: seq<FilterNode>, i: nat, n: nat, catalog: Catalog, parts: Parts, params: seq<Param>)
    returns (child: Compiled)
    requires i < |children| && CompileChildren(children, |children|, n, catalog) == Ok(parts)
    requires IsSlice(params, n, parts.params)
    ensures CompileNode(children[i], n + Offset(children, i), catalog) == Ok(child)
    ensures IsSlice(params, n + Offset(children, i), child.params)
  {
    var part, lo := ChildCompiles(children, i, n, catalog, parts);
    child := part;
    SliceOfSlice(parts.params, lo, child.params, n, params);
  }

  lemma ChildHasNoBare(children: seq<FilterNode>, i: nat, catalog: Catalog)
    requires i < |children| && forall c :: c in ConditionsOf(children) ==> !PrintsBareRelation(c, catalog)
    ensures !HasBareRelation(children[i], catalog)
  {
    ChildConditions(children, i);
  }

  lemma SliceOfSlice(all: seq<Param>, lo: nat, own: seq<Param>, n: nat, params: seq<Param>)
    requires IsSlice(params, n, all) && IsSlice(all, lo, own)
    ensures IsSlice(params, n + lo, own)
  {
    assert forall k :: 0 <= k < |all| ==> params[n + k] == all[k];
    assert forall k :: 0 <= k < |own| ==> own[k] == all[lo + k];
  }

  // Joining expressions from the left means what the group means.
  lemma {:induction false} ChainMeans(children: seq<FilterNode>, k: nat, n: nat, op: GroupOp, ticket: Row, world: World,
                                      catalog: Catalog, naming: Naming, attributes: Attributes, params: seq<Param>)
    requires 0 < k <= |children|
    requires forall i :: 0 <= i < k ==> ChildAgrees(children, i, n, ticket, world, catalog, naming, attributes, params)
    ensures var each := Meanings(children, k, ticket, world, attributes, catalog.dates);
      Eval(ChainExpr(children, k, n, op, catalog, naming), world, map["tickets" := ticket], params) ==
      if op == AllOf then AllTrue(each) else AnyTrue(each)
    decreases k
  {
    var last := Meaning(children[k - 1], ticket, world, attributes, catalog.dates);
    var before := Meanings(children, k - 1, ticket, world, attributes, catalog.dates);
    assert ChildAgrees(children, k - 1, n, ticket, world, catalog, naming, attributes, params);
    if k == 1 {
      assert before + [last] == [last];
    } else {
      ChainMeans(children, k - 1, n, op, ticket, world, catalog, naming, attributes, params);
      if op == AllOf {
        AllTrueLast(before, last);
      } else {
        AnyTrueLast(before, last);
      }
    }
  }

  // ------------------------------------------------------------- main theorems

  // Running a compiled filter gives its meaning on every ticket, and the only
  // filters the database rejects are those that print a related table's column
  // outside an EXISTS.
  lemma CompilePreservesMeaning(ast: FilterNode, ticket: Row, world: World, catalog: Catalog, naming: Naming,
                                attributes: Attributes)
    requires LikePattern.KeepsWildcards(world.fold) && SoundCatalog(catalog, naming)
    requires KeepsAll(catalog, naming, attributes)
    requires CompileNode(ast, 0, catalog).Ok?
    ensures RunOn(ticket, world, CompileNode(ast, 0, catalog).value) ==
            if HasBareRelation(ast, catalog) then UnresolvedName
            else Answered(Meaning(ast, ticket, world, attributes, catalog.dates))
  {
    var compiled := CompileNode(ast, 0, catalog).value;
    CompileParse.CompiledTextParses(ast, 0, catalog, naming);
    ArityIsParams(ast, 0, catalog);
    NodeResolves(ast, 0, |compiled.params|, catalog, naming, compiled);
    if !HasBareRelation(ast, catalog) {
      assert compiled.params[0..|compiled.params|] == compiled.params;
      NodeMeans(ast, 0, ticket, world, catalog, naming, attributes, compiled, compiled.params);
    }
  }
}
