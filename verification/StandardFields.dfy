/**
 * What users know of the filter fields, without the registry: where the values of a field
 * are found, which values it takes, and which conditions on it are accepted.
 */
module StandardFields {
  import opened Basics
  import opened Json
  import opened FilterAst
  import opened FieldRegistry
  import opened FilterCompile
  import opened CompileTokens
  import opened FilterMeaning
  import opened FilterValidate
  import opened CompileMeaning
  import LikePattern

  // --------------------------------------------------------------- where values are

  function StandardNaming(field: FieldName): ColumnName {
    match field
    case Status => ColumnName("tickets", "status")
    case Priority => ColumnName("tickets", "priority")
    case CategoryId => ColumnName("tickets", "category_id")
    case CategoryPath => ColumnName("tickets", "category_path")
    case TagId => ColumnName("ticket_tags", "tag_id")
    case AssignmentGroupId => ColumnName("tickets", "assignment_group_id")
    case AssigneeUserId => ColumnName("tickets", "assignee_id")
    case OrganizationId => ColumnName("tickets", "organization_id")
    case SlaState => ColumnName("tickets", "sla_state")
    case CreatedAt => ColumnName("tickets", "created_at")
    case UpdatedAt => ColumnName("tickets", "updated_at")
    case ResolvedAt => ColumnName("tickets", "resolved_at")
    case HasJiraLink => ColumnName("tickets", "has_jira_link")
    case AffectedArea => ColumnName("ticket_affected_areas", "area_id")
    case OtherField(_) => ColumnName("tickets", "")
  }

  function StandardAttributes(field: FieldName): Option<Attribute> {
    match field
    case Status => Some(Attribute(OnTicket("status"), false))
    case Priority => Some(Attribute(OnTicket("priority"), false))
    case CategoryId => Some(Attribute(OnTicket("category_id"), false))
    case CategoryPath => Some(Attribute(OnTicket("category_path"), false))
    case TagId => Some(Attribute(InRelated("ticket_tags", "ticket_id", "tag_id"), false))
    case AssignmentGroupId => Some(Attribute(OnTicket("assignment_group_id"), false))
    case AssigneeUserId => Some(Attribute(OnTicket("assignee_id"), false))
    case OrganizationId => Some(Attribute(OnTicket("organization_id"), false))
    case SlaState => Some(Attribute(OnTicket("sla_state"), false))
    case CreatedAt => Some(Attribute(OnTicket("created_at"), true))
    case UpdatedAt => Some(Attribute(OnTicket("updated_at"), true))
    case ResolvedAt => Some(Attribute(OnTicket("resolved_at"), true))
    case HasJiraLink => Some(Attribute(OnTicket("has_jira_link"), false))
    case AffectedArea => Some(Attribute(InRelated("ticket_affected_areas", "ticket_id", "area_id"), false))
    case OtherField(_) => None
  }

  // The registry keeps to this table.
  lemma StandardFieldsAreKept(dates: Dates)
    ensures KeepsAll(StandardCatalog(dates), StandardNaming, StandardAttributes)
  {
    hide StandardNaming, StandardAttributes, FieldRegistry.Lookup, Keeps;
    forall field | Lookup(field).Some?
      ensures StandardAttributes(field).Some?
      ensures Keeps(Lookup(field).value, StandardNaming(field), StandardAttributes(field).value)
    {
      FieldIsKept(field);
    }
  }

  lemma FieldIsKept(field: FieldName)
    requires Lookup(field).Some?
    ensures StandardAttributes(field).Some?
    ensures Keeps(Lookup(field).value, StandardNaming(field), StandardAttributes(field).value)
  {
  }

  // ------------------------------------------------------------- what is accepted

  datatype Domain = OneOf(names: set<string>) | Ids | Texts | Instants | Flags

  function DomainOf(field: FieldName): Option<Domain> {
    match field
    case Status => Some(OneOf({"open", "in_progress", "pending", "resolved", "closed"}))
    case Priority => Some(OneOf({"P1", "P2", "P3", "P4"}))
    case SlaState => Some(OneOf({"ok", "warning", "breached", "paused"}))
    case CategoryPath => Some(Texts)
    case CreatedAt => Some(Instants)
    case UpdatedAt => Some(Instants)
    case ResolvedAt => Some(Instants)
    case HasJiraLink => Some(Flags)
    case OtherField(_) => None
    case _ => Some(Ids)
  }

  predicate IsValueOf(v: Json, domain: Domain, dates: Dates) {
    match domain
    case OneOf(names) => v.JStr? && v.s in names
    case Ids => v.JStr? && IsUuid(v.s)
    case Texts => v.JStr? && 1 <= |v.s| <= 512
    case Instants =>
      v.JStr? && (v.s in {"today", "yesterday", "this_week", "this_month", "this_year", "last_7_days", "last_30_days",
                          "last_90_days"} || dates.parse(v.s).Some?)
    case Flags => v.JBool?
  }

  predicate AreValuesOf(v: Json, domain: Domain, dates: Dates)
    ensures AreValuesOf(v, domain, dates) ==> v.JArr?
  {
    v.JArr? && forall i :: 0 <= i < |v.items| ==> IsValueOf(v.items[i], domain, dates)
  }

  // Tags and areas, which a ticket has many of.
  predicate IsMany(field: FieldName) {
    field == TagId || field == AffectedArea
  }

  // The operators a field is offered with.
  predicate IsOffered(field: FieldName, domain: Domain, op: Operator) {
    match op
    case OpEq => true
    case OpNeq => !IsMany(field) && !domain.Flags?
    case OpIn => domain.OneOf? || domain.Ids?
    case OpNotIn => domain.OneOf? || domain.Ids?
    case OpContains => domain.Texts?
    case OpIsNull => !IsMany(field) && field != OrganizationId
    case OpIsNotNull => !IsMany(field) && field != OrganizationId
    case OtherOperator(_) => false
    case _ => domain.Instants?
  }

  // The values an operator takes.
  predicate Takes(op: Operator, domain: Domain, v: Json, dates: Dates) {
    match op
    case OpIsNull => true
    case OpIsNotNull => true
    case OpIn => AreValuesOf(v, domain, dates) && v.items != []
    case OpNotIn => AreValuesOf(v, domain, dates) && v.items != []
    case OpBetween => AreValuesOf(v, domain, dates) && |v.items| == 2
    case _ => IsValueOf(v, domain, dates)
  }

  predicate IsAccepted(c: FilterNode, dates: Dates)
    requires c.Condition?
  {
    match DomainOf(c.field)
    case None => false
    case Some(domain) => IsOffered(c.field, domain, c.operator) && Takes(c.operator, domain, c.value, dates)
  }

  lemma EqualityHas(op: Operator)
    ensures op in EQUALITY <==> op.OpEq? || op.OpNeq? || op.OpIn? || op.OpNotIn? || op.OpIsNull? || op.OpIsNotNull?
  {
    assert EQUALITY[..] == [OpEq, OpNeq, OpIn, OpNotIn, OpIsNull, OpIsNotNull];
  }

  lemma OrderedHas(op: Operator)
    ensures op in ORDERED <==> op.OpEq? || op.OpNeq? || op.OpGt? || op.OpGte? || op.OpLt? || op.OpLte? ||
                               op.OpBetween? || op.OpIsNull? || op.OpIsNotNull?
  {
    assert ORDERED[..] == [OpEq, OpNeq, OpGt, OpGte, OpLt, OpLte, OpBetween, OpIsNull, OpIsNotNull];
  }

  lemma OfferedExactly(field: FieldName, op: Operator)
    requires Lookup(field).Some?
    ensures op in Lookup(field).value.allowed <==> IsOffered(field, DomainOf(field).value, op)
  {
    IsListed(field);
    hide FieldRegistry.Lookup, DomainOf;
    if field in {CategoryPath, TagId, OrganizationId, HasJiraLink, AffectedArea} {
      FewOffered(field, op);
    } else if field in {CreatedAt, UpdatedAt, ResolvedAt} {
      OrderedOffered(field);
      OrderedHas(op);
    } else {
      EqualityOffered(field);
      EqualityHas(op);
    }
  }

  lemma IsListed(field: FieldName)
    requires Lookup(field).Some?
    ensures field in {CategoryPath, TagId, OrganizationId, HasJiraLink, AffectedArea} ||
            field in {CreatedAt, UpdatedAt, ResolvedAt} ||
            field in {Status, Priority, CategoryId, AssignmentGroupId, AssigneeUserId, SlaState}
  {
  }

  lemma OrderedOffered(field: FieldName)
    requires field in {CreatedAt, UpdatedAt, ResolvedAt}
    ensures Lookup(field).Some? && Lookup(field).value.allowed == ORDERED && DomainOf(field) == Some(Instants)
  {
  }

  lemma EqualityOffered(field: FieldName)
    requires field in {Status, Priority, CategoryId, AssignmentGroupId, AssigneeUserId, SlaState}
    ensures Lookup(field).Some? && Lookup(field).value.allowed == EQUALITY && DomainOf(field).Some?
    ensures DomainOf(field).value.OneOf? || DomainOf(field).value.Ids?
  {
  }

  lemma FewOffered(field: FieldName, op: Operator)
    requires field in {CategoryPath, TagId, OrganizationId, HasJiraLink, AffectedArea}
    ensures op in Lookup(field).value.allowed <==> IsOffered(field, DomainOf(field).value, op)
  {
  }

  lemma ValuesExactly(field: FieldName, v: Json, dates: Dates)
    requires Lookup(field).Some?
    ensures Accepts(Lookup(field).value.scalarSchema, v, dates) <==> IsValueOf(v, DomainOf(field).value, dates)
  {
  }

  lemma PairsExactly(field: FieldName, v: Json, dates: Dates)
    requires Lookup(field).Some? && DomainOf(field) == Some(Instants)
    ensures Lookup(field).value.rangeSchema.Some?
    ensures v.JArr? && |v.items| == 2 && Accepts(Lookup(field).value.rangeSchema.value, v, dates) <==>
            AreValuesOf(v, Instants, dates) && |v.items| == 2
  {
    if v.JArr? {
      forall i | 0 <= i < |v.items|
        ensures Accepts(DateSchema, v.items[i], dates) <==> IsValueOf(v.items[i], Instants, dates)
      {
        ValuesExactly(field, v.items[i], dates);
      }
    }
  }

  lemma ListsExactly(field: FieldName, v: Json, dates: Dates)
    requires Lookup(field).Some? && (DomainOf(field).value.OneOf? || DomainOf(field).value.Ids?)
    ensures v.JArr? && v.items != [] && Accepts(ArrayValueSchema(Lookup(field).value), v, dates) <==>
            AreValuesOf(v, DomainOf(field).value, dates) && v.items != []
  {
    var entry := Lookup(field).value;
    assert ArrayValueSchema(entry) == ArraySchema(entry.scalarSchema, 1);
    if v.JArr? {
      forall i | 0 <= i < |v.items|
        ensures Accepts(entry.scalarSchema, v.items[i], dates) <==> IsValueOf(v.items[i], DomainOf(field).value, dates)
      {
        ValuesExactly(field, v.items[i], dates);
      }
    }
  }

  // A condition is well formed exactly when its operator is offered for the field and
  // takes the value.
  lemma AcceptsExactly(c: FilterNode, dates: Dates)
    requires c.Condition?
    ensures WellFormed(c, StandardCatalog(dates)) <==> IsAccepted(c, dates)
  {
    hide FieldRegistry.Lookup, IsValueOf, AreValuesOf, ArrayValueSchema, Accepts, DomainOf;
    KnownExactly(c.field);
    if Lookup(c.field).Some? {
      OfferedExactly(c.field, c.operator);
      if IsOffered(c.field, DomainOf(c.field).value, c.operator) {
        TakenExactly(c, dates);
      }
    }
  }

  // A filter is accepted exactly when no node is deeper than 4, it has at most 50
  // conditions, and each of them is accepted.
  lemma ValidExactly(ast: FilterNode, dates: Dates)
    ensures Valid(ast, StandardCatalog(dates)) <==>
            (forall path :: NodeAt(ast, path).Some? ==> |path| <= 4) && |Conditions(ast)| <= 50 &&
            forall c :: c in Conditions(ast) ==> IsAccepted(c, dates)
  {
    DepthIsLongestPath(ast, 4);
    forall c | c in Conditions(ast)
      ensures WellFormed(c, StandardCatalog(dates)) <==> IsAccepted(c, dates)
    {
      AcceptsExactly(c, dates);
    }
  }

  lemma KnownExactly(field: FieldName)
    ensures Lookup(field).Some? <==> DomainOf(field).Some?
  {
  }

  lemma TakenExactly(c: FilterNode, dates: Dates)
    requires c.Condition? && Lookup(c.field).Some? && IsOffered(c.field, DomainOf(c.field).value, c.operator)
    requires c.operator in Lookup(c.field).value.allowed
    ensures WellFormed(c, StandardCatalog(dates)) <==> Takes(c.operator, DomainOf(c.field).value, c.value, dates)
  {
    hide FieldRegistry.Lookup, IsValueOf, AreValuesOf, ArrayValueSchema, Accepts, DomainOf;
    KnownExactly(c.field);
    if c.operator.OpIn? || c.operator.OpNotIn? {
      ListsExactly(c.field, c.value, dates);
    } else if c.operator.OpBetween? {
      PairsExactly(c.field, c.value, dates);
    } else if !c.operator.OpIsNull? && !c.operator.OpIsNotNull? {
      ValuesExactly(c.field, c.value, dates);
    }
  }

  // ---------------------------------------------------------------- what is bound

  // The instant a relative token or a date text stands for.
  function InstantOf(text: string, dates: Dates): int {
    if IsRelativeDateToken(text) then dates.relative(text)
    else match dates.parse(text)
      case Some(ms) => ms
      case None => 0
  }

  function BoundValue(v: Json, field: FieldName, dates: Dates): Param {
    if DomainOf(field) == Some(Instants) && v.JStr? then Instant(InstantOf(v.s, dates)) else Value(v)
  }

  // The values of a condition, as the query gets them.
  function BoundValues(c: FilterNode, dates: Dates): seq<Param>
    requires c.Condition?
  {
    match c.operator
    case OpIsNull => []
    case OpIsNotNull => []
    case OpIn => BoundItems(c, dates)
    case OpNotIn => BoundItems(c, dates)
    case OpBetween => BoundItems(c, dates)
    case OpContains => if c.value.JStr? then [Value(JStr(LikePattern.ContainsPattern(c.value.s)))] else []
    case _ => [BoundValue(c.value, c.field, dates)]
  }

  function BoundItems(c: FilterNode, dates: Dates): seq<Param>
    requires c.Condition?
  {
    if c.value.JArr? then
      seq(|c.value.items|, i requires 0 <= i < |c.value.items| => BoundValue(c.value.items[i], c.field, dates))
    else []
  }

  function AllBound(cs: seq<FilterNode>, dates: Dates): seq<Param>
    requires forall c :: c in cs ==> c.Condition?
  {
    if cs == [] then [] else BoundValues(cs[0], dates) + AllBound(cs[1..], dates)
  }

  lemma {:induction false} AllBoundConcat(a: seq<FilterNode>, b: seq<FilterNode>, dates: Dates)
    requires (forall c :: c in a ==> c.Condition?) && forall c :: c in b ==> c.Condition?
    ensures AllBound(a + b, dates) == AllBound(a, dates) + AllBound(b, dates)
  {
    if a == [] {
      assert a + b == b;
    } else {
      assert (a + b)[1..] == a[1..] + b;
      AllBoundConcat(a[1..], b, dates);
    }
  }

  lemma InstantFieldsAreTimestamps(field: FieldName)
    requires Lookup(field).Some?
    ensures Lookup(field).value.sqlType == TimestampType <==> DomainOf(field) == Some(Instants)
  {
  }

  lemma ScalarBinds(v: Json, field: FieldName, dates: Dates)
    requires Lookup(field).Some? && ResolveScalar(v, Lookup(field).value.sqlType, dates).Ok?
    ensures ResolveScalar(v, Lookup(field).value.sqlType, dates).value == BoundValue(v, field, dates)
  {
    InstantFieldsAreTimestamps(field);
  }

  lemma ConditionBinds(c: FilterNode, n: nat, dates: Dates)
    requires c.Condition? && CompileCondition(c, n, StandardCatalog(dates)).Ok?
    ensures CompileCondition(c, n, StandardCatalog(dates)).value.params == BoundValues(c, dates)
  {
    hide FieldRegistry.Lookup, ResolveScalar, BoundValue, MembershipSql, NullCheckSql, ScalarSql;
    var entry, vs := Lookup(c.field).value, if c.value.JArr? then c.value.items else [];
    if c.operator == OpIn || c.operator == OpNotIn || c.operator == OpBetween {
      forall i | 0 <= i < |vs| && ResolveScalar(vs[i], entry.sqlType, dates).Ok?
        ensures ResolveScalar(vs[i], entry.sqlType, dates).value == BoundValue(vs[i], c.field, dates)
      {
        ScalarBinds(vs[i], c.field, dates);
      }
    } else if c.operator != OpIsNull && c.operator != OpIsNotNull && c.operator != OpContains {
      ScalarBinds(c.value, c.field, dates);
    }
  }

  lemma {:induction false} NodeBinds(node: FilterNode, n: nat, dates: Dates)
    requires CompileNode(node, n, StandardCatalog(dates)).Ok?
    ensures CompileNode(node, n, StandardCatalog(dates)).value.params == AllBound(Conditions(node), dates)
    decreases node
  {
    hide FilterCompile.CompileCondition, BoundValues;
    match node
    case Condition(_, _, _) =>
      ConditionBinds(node, n, dates);
      assert AllBound([node], dates) == BoundValues(node, dates) + [];
    case Group(_, children) =>
      if children != [] {
        ChildrenBind(children, |children|, n, dates);
        assert children[..|children|] == children;
      }
  }

  lemma {:induction false} ChildrenBind(children: seq<FilterNode>, k: nat, n: nat, dates: Dates)
    requires k <= |children| && CompileChildren(children, k, n, StandardCatalog(dates)).Ok?
    ensures CompileChildren(children, k, n, StandardCatalog(dates)).value.params ==
            AllBound(ConditionsOf(children[..k]), dates)
    decreases children, k
  {
    hide FilterCompile.CompileCondition, BoundValues;
    if k > 0 {
      var parts := CompileChildren(children, k, n, StandardCatalog(dates)).value;
      var before, last := LastPart(children, k, n, StandardCatalog(dates), parts);
      ChildrenBind(children, k - 1, n, dates);
      NodeBinds(children[k - 1], n + |before.params|, dates);
      ConditionsOfLast(children, k);
      AllBoundConcat(ConditionsOf(children[..k - 1]), Conditions(children[k - 1]), dates);
    }
  }

  // The parameters of a compiled filter are the values of its conditions from left to
  // right; on a time field each is the instant its token or date text stands for.
  lemma ValuesAreBoundInOrder(ast: FilterNode, dates: Dates)
    requires CompileNode(ast, 0, StandardCatalog(dates)).Ok?
    ensures CompileNode(ast, 0, StandardCatalog(dates)).value.params == AllBound(Conditions(ast), dates)
  {
    NodeBinds(ast, 0, dates);
  }

  lemma TimesAreBoundAsInstants(c: FilterNode, dates: Dates)
    requires c.Condition? && IsAccepted(c, dates) && c.field in {CreatedAt, UpdatedAt, ResolvedAt}
    ensures forall p :: p in BoundValues(c, dates) ==> p.Instant?
    ensures c.value.JStr? && c.operator !in {OpIsNull, OpIsNotNull} ==>
              BoundValues(c, dates) == [Instant(InstantOf(c.value.s, dates))]
    ensures c.operator == OpBetween ==>
              BoundValues(c, dates) ==
              [Instant(InstantOf(c.value.items[0].s, dates)), Instant(InstantOf(c.value.items[1].s, dates))]
  {
  }
}
