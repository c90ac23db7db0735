/**
 * The filter compiler: a filter tree becomes SQL text with $n placeholders and
 * the parameters they refer to. The methods thread one shared parameter array
 * through the recursion; the functions say what text and parameters result.
 */
module FilterCompile {
  import opened Basics
  import opened Json
  import opened Text
  import opened FilterAst
  import opened FieldRegistry
  import LikePattern

  // A bound parameter: a filter value as it stands, or an instant.
  datatype Param = Value(json: Json) | Instant(ms: int)

  datatype CompileError =
    | UnknownFieldReached | OperatorReached | ArrayExpected | PairExpected | StringExpected
    | DateExpected | UnhandledOperator

  datatype Compiled = Compiled(sql: string, params: seq<Param>)

  // ------------------------------------------------------------ expressions

  function PlaceholderText(n: nat): string {
    "$" + NatText(n)
  }

  function ResolveDateValue(v: Json, dates: Dates): Result<Param, CompileError> {
    if !v.JStr? then Err(DateExpected)
    else if IsRelativeDateToken(v.s) then Ok(Instant(dates.relative(v.s)))
    else match dates.parse(v.s)
      case Some(ms) => Ok(Instant(ms))
      case None => Err(DateExpected)
  }

  function ResolveScalar(v: Json, sqlType: SqlType, dates: Dates): Result<Param, CompileError> {
    if sqlType == TimestampType then ResolveDateValue(v, dates) else Ok(Value(v))
  }

  function ResolveValues(vs: seq<Json>, sqlType: SqlType, dates: Dates): (r: Result<seq<Param>, CompileError>)
    ensures r.Ok? ==> |r.value| == |vs|
    ensures r.Ok? ==> forall i :: 0 <= i < |vs| ==> ResolveScalar(vs[i], sqlType, dates) == Ok(r.value[i])
    ensures r.Err? ==> exists i :: 0 <= i < |vs| && ResolveScalar(vs[i], sqlType, dates).Err?
  {
    if vs == [] then Ok([])
    else
      match ResolveScalar(vs[0], sqlType, dates)
      case Err(e) => Err(e)
      case Ok(p) =>
        match ResolveValues(vs[1..], sqlType, dates)
        case Err(e) =>
          assert exists i :: 0 <= i < |vs[1..]| && ResolveScalar(vs[1..][i], sqlType, dates).Err?;
          Err(e)
        case Ok(ps) => Ok([p] + ps)
  }

  // "$a, $a+1, ..." for k placeholders, the first numbered a.
  function PlaceholderTexts(a: nat, k: nat): (texts: seq<string>)
    ensures |texts| == k
  {
    seq(k, i requires 0 <= i < k => PlaceholderText(a + i))
  }

  function ExistsRows(join: ExistsJoin): string {
    "EXISTS (SELECT 1 FROM " + Quoted(join.table) + " WHERE " + Quoted(join.table) + "." +
    Quoted(join.joinColumn) + " = \"tickets\".\"id\""
  }

  // The text for an EXISTS field under in / not_in.
  function ExistsIn(join: ExistsJoin, placeholders: string): string {
    ExistsRows(join) + " AND " + Quoted(join.table) + "." + Quoted(join.valueColumn) +
    " IN (" + placeholders + "))"
  }

  function ScalarSql(column: string, op: Operator, placeholder: string): Result<string, CompileError> {
    match op
    case OpEq => Ok(column + " = " + placeholder)
    case OpNeq => Ok(column + " != " + placeholder)
    case OpGt => Ok(column + " > " + placeholder)
    case OpGte => Ok(column + " >= " + placeholder)
    case OpLt => Ok(column + " < " + placeholder)
    case OpLte => Ok(column + " <= " + placeholder)
    case _ => Err(UnhandledOperator)
  }

  // A condition compiled when n parameters are already bound.
  function CompileCondition(c: FilterNode, n: nat, catalog: Catalog): Result<Compiled, CompileError>
    requires c.Condition?
  {
    match catalog.lookup(c.field)
    case None => Err(UnknownFieldReached)
    case Some(entry) =>
      if c.operator !in entry.allowed then Err(OperatorReached)
      else if c.operator == OpIsNull || c.operator == OpIsNotNull then Ok(Compiled(NullCheckSql(entry, c.operator), []))
      else if c.operator == OpIn || c.operator == OpNotIn then CompileMembership(entry, c.operator, c.value, n, catalog)
      else if c.operator == OpBetween then CompileBetween(entry, c.value, n, catalog)
      else if c.operator == OpContains then
        if !c.value.JStr? then Err(StringExpected)
        else Ok(Compiled(entry.column + " ILIKE " + PlaceholderText(n + 1),
                         [Value(JStr(LikePattern.ContainsPattern(c.value.s)))]))
      else
        match ResolveScalar(c.value, entry.sqlType, catalog.dates)
        case Err(e) => Err(e)
        case Ok(p) =>
          match ScalarSql(entry.column, c.operator, PlaceholderText(n + 1))
          case Err(e) => Err(e)
          case Ok(sql) => Ok(Compiled(sql, [p]))
  }

  function NullCheckSql(entry: FieldEntry, op: Operator): string {
    match entry.join
    case Some(join) =>
      if op == OpIsNull then "NOT " + (ExistsRows(join) + ")") else ExistsRows(join) + ")"
    case None =>
      if op == OpIsNull then entry.column + " IS NULL" else entry.column + " IS NOT NULL"
  }

  function CompileMembership(entry: FieldEntry, op: Operator, v: Json, n: nat, catalog: Catalog):
      Result<Compiled, CompileError> {
    if !v.JArr? || v.items == [] then Err(ArrayExpected)
    else
      match ResolveValues(v.items, entry.sqlType, catalog.dates)
      case Err(e) => Err(e)
      case Ok(ps) => Ok(Compiled(MembershipSql(entry, op, n, |ps|), ps))
  }

  function MembershipSql(entry: FieldEntry, op: Operator, n: nat, k: nat): string {
    var placeholders := Join(PlaceholderTexts(n + 1, k), ", ");
    match entry.join
    case Some(join) =>
      if op == OpNotIn then "NOT " + ExistsIn(join, placeholders) else ExistsIn(join, placeholders)
    case None =>
      if op == OpIn then entry.column + " IN (" + placeholders + ")"
      else entry.column + " NOT IN (" + placeholders + ")"
  }

  function CompileBetween(entry: FieldEntry, v: Json, n: nat, catalog: Catalog): Result<Compiled, CompileError> {
    if !v.JArr? || |v.items| != 2 then Err(PairExpected)
    else
      match ResolveScalar(v.items[0], entry.sqlType, catalog.dates)
      case Err(e) => Err(e)
      case Ok(low) =>
        match ResolveScalar(v.items[1], entry.sqlType, catalog.dates)
        case Err(e) => Err(e)
        case Ok(high) =>
          Ok(Compiled(entry.column + " BETWEEN " + PlaceholderText(n + 1) + " AND " + PlaceholderText(n + 2),
                      [low, high]))
  }

  datatype Parts = Parts(texts: seq<string>, params: seq<Param>)

  function CompileNode(node: FilterNode, n: nat, catalog: Catalog): Result<Compiled, CompileError>
    decreases node
  {
    match node
    case Condition(_, _, _) => CompileCondition(node, n, catalog)
    case Group(op, children) =>
      if children == [] then Ok(Compiled(if op == AllOf then "TRUE" else "FALSE", []))
      else
        match CompileChildren(children, |children|, n, catalog)
        case Err(e) => Err(e)
        case Ok(parts) => Ok(Compiled(GroupSql(op, parts.texts), parts.params))
  }

  function GroupSql(op: GroupOp, texts: seq<string>): string {
    "(" + Join(texts, Separator(op)) + ")"
  }

  function Separator(op: GroupOp): string {
    if op == AllOf then " AND " else " OR "
  }

  // The first k children, compiled left to right.
  function CompileChildren(children: seq<FilterNode>, k: nat, n: nat, catalog: Catalog):
      (r: Result<Parts, CompileError>)
    requires k <= |children|
    ensures r.Ok? ==> |r.value.texts| == k
    decreases children, k
  {
    if k == 0 then Ok(Parts([], []))
    else
      match CompileChildren(children, k - 1, n, catalog)
      case Err(e) => Err(e)
      case Ok(before) =>
        match CompileNode(children[k - 1], n + |before.params|, catalog)
        case Err(e) => Err(e)
        case Ok(c) => Ok(Parts(before.texts + [c.sql], before.params + c.params))
  }

  // What the last of k successful children adds.
  lemma LastPart(children: seq<FilterNode>, k: nat, n: nat, catalog: Catalog, parts: Parts)
    returns (before: Parts, last: Compiled)
    requires 0 < k <= |children| && CompileChildren(children, k, n, catalog) == Ok(parts)
    ensures CompileChildren(children, k - 1, n, catalog) == Ok(before)
    ensures CompileNode(children[k - 1], n + |before.params|, catalog) == Ok(last)
    ensures parts == Parts(before.texts + [last.sql], before.params + last.params)
  {
    before := CompileChildren(children, k - 1, n, catalog).value;
    last := CompileNode(children[k - 1], n + |before.params|, catalog).value;
  }

  lemma NextPart(children: seq<FilterNode>, k: nat, n: nat, catalog: Catalog, before: Parts,
                 next: Result<Compiled, CompileError>)
    requires k < |children| && CompileChildren(children, k, n, catalog) == Ok(before)
    requires next == CompileNode(children[k], n + |before.params|, catalog)
    ensures CompileChildren(children, k + 1, n, catalog) ==
            match next
            case Ok(c) => Ok(Parts(before.texts + [c.sql], before.params + c.params))
            case Err(e) => Err(e)
  {
  }

  lemma {:induction false} FirstErrorWins(children: seq<FilterNode>, k: nat, m: nat, n: nat, catalog: Catalog)
    requires k <= m <= |children|
    requires CompileChildren(children, k, n, catalog).Err?
    ensures CompileChildren(children, m, n, catalog) == CompileChildren(children, k, n, catalog)
    decreases m
  {
    if k < m {
      FirstErrorWins(children, k, m - 1, n, catalog);
    }
  }

  // ------------------------------------------------------------- the program

  // The params array shared by the whole compilation.
  class ParamList {
    var items: seq<Param>

    constructor ()
      ensures items == []
    {
      items := [];
    }

    method Add(p: Param) returns (placeholder: string)
      modifies this
      ensures items == old(items) + [p]
      ensures placeholder == PlaceholderText(|items|)
    {
      items := items + [p];
      placeholder := PlaceholderText(|items|);
    }
  }

  // On success the text and the parameters pushed are those of the function;
  // a throw leaves only extra parameters behind.
  predicate Emits(before: seq<Param>, after: seq<Param>, r: Result<string, CompileError>,
                  expected: Result<Compiled, CompileError>) {
    match expected
    case Ok(c) => r == Ok(c.sql) && after == before + c.params
    case Err(e) => r == Err(e) && before <= after
  }

  method AddAll(ps: seq<Param>, params: ParamList) returns (placeholders: string)
    modifies params
    ensures params.items == old(params.items) + ps
    ensures placeholders == Join(PlaceholderTexts(|old(params.items)| + 1, |ps|), ", ")
  {
    var texts := [];
    var i := 0;
    while i < |ps|
      invariant 0 <= i <= |ps|
      invariant params.items == old(params.items) + ps[..i]
      invariant texts == PlaceholderTexts(|old(params.items)| + 1, |ps|)[..i]
    {
      var text := params.Add(ps[i]);
      texts := texts + [text];
      i := i + 1;
    }
    assert texts == PlaceholderTexts(|old(params.items)| + 1, |ps|);
    placeholders := Join(texts, ", ");
  }

  method EmitCondition(c: FilterNode, params: ParamList, catalog: Catalog) returns (r: Result<string, CompileError>)
    requires c.Condition?
    modifies params
    ensures Emits(old(params.items), params.items, r, CompileCondition(c, |old(params.items)|, catalog))
  {
    var found := catalog.lookup(c.field);
    if found.None? {
      return Err(UnknownFieldReached);
    }
    var entry := found.value;
    var op := c.operator;
    if op !in entry.allowed {
      return Err(OperatorReached);
    }
    if op == OpIsNull || op == OpIsNotNull {
      return Ok(NullCheckSql(entry, op));
    }
    if op == OpIn || op == OpNotIn {
      if !c.value.JArr? || c.value.items == [] {
        return Err(ArrayExpected);
      }
      var resolved := ResolveValues(c.value.items, entry.sqlType, catalog.dates);
      if resolved.Err? {
        return Err(resolved.error);
      }
      var placeholders := AddAll(resolved.value, params);
      if entry.join.Some? {
        var existsSql := ExistsIn(entry.join.value, placeholders);
        return Ok(if op == OpNotIn then "NOT " + existsSql else existsSql);
      }
      return Ok(if op == OpIn then entry.column + " IN (" + placeholders + ")"
                else entry.column + " NOT IN (" + placeholders + ")");
    }
    if op == OpBetween {
      if !c.value.JArr? || |c.value.items| != 2 {
        return Err(PairExpected);
      }
      var lower := ResolveScalar(c.value.items[0], entry.sqlType, catalog.dates);
      if lower.Err? {
        return Err(lower.error);
      }
      var upper := ResolveScalar(c.value.items[1], entry.sqlType, catalog.dates);
      if upper.Err? {
        return Err(upper.error);
      }
      var p1 := params.Add(lower.value);
      var p2 := params.Add(upper.value);
      return Ok(entry.column + " BETWEEN " + p1 + " AND " + p2);
    }
    if op == OpContains {
      if !c.value.JStr? {
        return Err(StringExpected);
      }
      var placeholder := params.Add(Value(JStr("%" + LikePattern.EscapeLike(c.value.s) + "%")));
      return Ok(entry.column + " ILIKE " + placeholder);
    }
    var resolved := ResolveScalar(c.value, entry.sqlType, catalog.dates);
    if resolved.Err? {
      return Err(resolved.error);
    }
    var placeholder := params.Add(resolved.value);
    return ScalarSql(entry.column, op, placeholder);
  }

  // The same for a list of children.
  predicate EmitsAll(before: seq<Param>, after: seq<Param>, r: Result<seq<string>, CompileError>,
                     expected: Result<Parts, CompileError>) {
    match expected
    case Ok(parts) => r == Ok(parts.texts) && after == before + parts.params
    case Err(e) => r == Err(e) && before <= after
  }

  // One more child, when the first i have compiled.
  method EmitChild(children: seq<FilterNode>, i: nat, params: ParamList, catalog: Catalog, ghost n: nat,
                   ghost done: Parts)
    returns (part: Result<string, CompileError>, ghost more: Parts)
    requires i < |children| && CompileChildren(children, i, n, catalog) == Ok(done)
    requires |params.items| == n + |done.params|
    modifies params
    ensures part.Err? ==> CompileChildren(children, i + 1, n, catalog) == Err(part.error)
    ensures part.Err? ==> old(params.items) <= params.items
    ensures part.Ok? ==> CompileChildren(children, i + 1, n, catalog) == Ok(more)
    ensures part.Ok? ==> more.texts == done.texts + [part.value]
    ensures part.Ok? ==> done.params <= more.params && params.items == old(params.items) + more.params[|done.params|..]
    decreases children, 0
  {
    ghost var compiled := CompileNode(children[i], n + |done.params|, catalog);
    NextPart(children, i, n, catalog, done, compiled);
    part := EmitNode(children[i], params, catalog);
    if part.Ok? {
      more := Parts(done.texts + [compiled.value.sql], done.params + compiled.value.params);
    } else {
      more := done;
    }
  }

  // Compiles the children left to right and stops at the first throw.
  method EmitChildren(children: seq<FilterNode>, params: ParamList, catalog: Catalog)
    returns (r: Result<seq<string>, CompileError>)
    modifies params
    ensures EmitsAll(old(params.items), params.items, r,
                     CompileChildren(children, |children|, |old(params.items)|, catalog))
    decreases children, 1
  {
    ghost var n := |params.items|;
    ghost var done := Parts([], []);
    var texts := [];
    var i := 0;
    while i < |children|
      invariant 0 <= i <= |children|
      invariant CompileChildren(children, i, n, catalog) == Ok(done)
      invariant texts == done.texts
      invariant params.items == old(params.items) + done.params
    {
      var part, more := EmitChild(children, i, params, catalog, n, done);
      if part.Err? {
        FirstErrorWins(children, i + 1, |children|, n, catalog);
        return Err(part.error);
      }
      done := more;
      texts := texts + [part.value];
      i := i + 1;
    }
    return Ok(texts);
  }

  method EmitNode(node: FilterNode, params: ParamList, catalog: Catalog) returns (r: Result<string, CompileError>)
    modifies params
    ensures Emits(old(params.items), params.items, r, CompileNode(node, |old(params.items)|, catalog))
    decreases node
  {
    match node
    case Condition(_, _, _) =>
      r := EmitCondition(node, params, catalog);
    case Group(op, children) =>
      if |children| == 0 {
        return Ok(if op == AllOf then "TRUE" else "FALSE");
      }
      var parts := EmitChildren(children, params, catalog);
      if parts.Err? {
        return Err(parts.error);
      }
      r := Ok("(" + Join(parts.value, if op == AllOf then " AND " else " OR ") + ")");
  }

  method CompileToPredicate(ast: FilterNode, catalog: Catalog) returns (r: Result<Compiled, CompileError>)
    ensures r == CompileNode(ast, 0, catalog)
  {
    var params := new ParamList();
    ghost var expected := CompileNode(ast, |params.items|, catalog);
    var sql := EmitNode(ast, params, catalog);
    assert Emits([], params.items, sql, expected);
    match sql
    case Err(e) => r := Err(e);
    case Ok(text) =>
      assert params.items == expected.value.params;
      r := Ok(Compiled(text, params.items));
  }
}
