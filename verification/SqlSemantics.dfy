/**
 * Three-valued evaluation of predicates (sections 9.1, 9.2, 9.23 and 9.24 of
 * the PostgreSQL documentation) over a ticket row and its related tables.
 */
module SqlSemantics {
  import opened Basics
  import opened Json
  import opened SqlSyntax
  import opened FilterCompile
  import LikePattern

  datatype Tri = Yes | No | Unknown

  function Tri3(b: bool): Tri {
    if b then Yes else No
  }

  function Not3(a: Tri): Tri {
    match a
    case Yes => No
    case No => Yes
    case Unknown => Unknown
  }

  function And3(a: Tri, b: Tri): Tri {
    if a == No || b == No then No
    else if a == Yes && b == Yes then Yes
    else Unknown
  }

  function Or3(a: Tri, b: Tri): Tri {
    Not3(And3(Not3(a), Not3(b)))
  }

  datatype SqlValue = SqlNull | SqlText(s: string) | SqlTime(ms: int) | SqlBool(b: bool) | SqlOther(json: Json)

  function JsonValue(v: Json): SqlValue {
    match v
    case JNull => SqlNull
    case JBool(b) => SqlBool(b)
    case JStr(s) => SqlText(s)
    case _ => SqlOther(v)
  }

  function ParamValue(p: Param): SqlValue {
    match p
    case Value(v) => JsonValue(v)
    case Instant(ms) => SqlTime(ms)
  }

  // Only timestamps are ordered by validated filters.
  predicate Less(a: SqlValue, b: SqlValue) {
    a.SqlTime? && b.SqlTime? && a.ms < b.ms
  }

  function Compare3(op: CompareOp, a: SqlValue, b: SqlValue): Tri {
    if a.SqlNull? || b.SqlNull? then Unknown
    else match op
      case CmpEq => Tri3(a == b)
      case CmpNeq => Tri3(a != b)
      case CmpGt => Tri3(Less(b, a))
      case CmpGte => Tri3(Less(b, a) || a == b)
      case CmpLt => Tri3(Less(a, b))
      case CmpLte => Tri3(Less(a, b) || a == b)
  }

  type Row = map<string, SqlValue>

  // The related tables, and the case folding of the database locale.
  datatype World = World(tables: map<string, seq<Row>>, fold: char -> char)

  // The rows in scope, by table name.
  type Scope = map<string, Row>

  function Cell(row: Row, column: string): SqlValue {
    if column in row then row[column] else SqlNull
  }

  function OperandValue(x: Operand, scope: Scope, params: seq<Param>): SqlValue {
    match x
    case Column(t, c) => if t in scope then Cell(scope[t], c) else SqlNull
    case Param(n) => if 1 <= n <= |params| then ParamValue(params[n - 1]) else SqlNull
  }

  function In3(x: SqlValue, options: List<Operand>, scope: Scope, params: seq<Param>): Tri {
    match options
    case Nil => No
    case Cons(y, rest) => Or3(Compare3(CmpEq, x, OperandValue(y, scope, params)), In3(x, rest, scope, params))
  }

  function TableRows(world: World, table: string): seq<Row> {
    if table in world.tables then world.tables[table] else []
  }

  function ILike3(world: World, a: SqlValue, b: SqlValue): Tri {
    if a.SqlNull? || b.SqlNull? then Unknown
    else Tri3(a.SqlText? && b.SqlText? && LikePattern.ILike(world.fold, a.s, b.s))
  }

  function Eval(e: Expr, world: World, scope: Scope, params: seq<Param>): Tri
    decreases e
  {
    match e
    case Const(b) => Tri3(b)
    case Not(e1) => Not3(Eval(e1, world, scope, params))
    case And(l, r) => And3(Eval(l, world, scope, params), Eval(r, world, scope, params))
    case Or(l, r) => Or3(Eval(l, world, scope, params), Eval(r, world, scope, params))
    case Comparison(op, x, y) => Compare3(op, OperandValue(x, scope, params), OperandValue(y, scope, params))
    case In(x, options) => In3(OperandValue(x, scope, params), options, scope, params)
    case Between(x, low, high) =>
      var v := OperandValue(x, scope, params);
      And3(Compare3(CmpGte, v, OperandValue(low, scope, params)),
           Compare3(CmpLte, v, OperandValue(high, scope, params)))
    case ILikes(x, y) => ILike3(world, OperandValue(x, scope, params), OperandValue(y, scope, params))
    case IsNull(x) => Tri3(OperandValue(x, scope, params).SqlNull?)
    case Exists(table, filter) =>
      var rows := TableRows(world, table);
      Tri3(exists i :: 0 <= i < |rows| && Eval(filter, world, scope[table := rows[i]], params) == Yes)
  }

  // Name resolution, done before any row is read: every column must belong to a
  // table in scope and every placeholder to a bound parameter.
  predicate OperandResolves(x: Operand, tables: set<string>, n: nat) {
    match x
    case Column(t, _) => t in tables
    case Param(k) => 1 <= k <= n
  }

  predicate OperandsResolve(xs: List<Operand>, tables: set<string>, n: nat) {
    match xs
    case Nil => true
    case Cons(x, rest) => OperandResolves(x, tables, n) && OperandsResolve(rest, tables, n)
  }

  predicate Resolves(e: Expr, tables: set<string>, n: nat) {
    match e
    case Const(_) => true
    case Not(e1) => Resolves(e1, tables, n)
    case And(l, r) => Resolves(l, tables, n) && Resolves(r, tables, n)
    case Or(l, r) => Resolves(l, tables, n) && Resolves(r, tables, n)
    case Comparison(_, x, y) => OperandResolves(x, tables, n) && OperandResolves(y, tables, n)
    case In(x, options) => OperandResolves(x, tables, n) && OperandsResolve(options, tables, n)
    case Between(x, low, high) =>
      OperandResolves(x, tables, n) && OperandResolves(low, tables, n) && OperandResolves(high, tables, n)
    case ILikes(x, y) => OperandResolves(x, tables, n) && OperandResolves(y, tables, n)
    case IsNull(x) => OperandResolves(x, tables, n)
    case Exists(table, filter) => Resolves(filter, tables + {table}, n)
  }

  // Running `SELECT ... FROM "tickets" WHERE <sql>` on one ticket row.
  datatype Answer = SyntaxError | UnresolvedName | Answered(value: Tri)

  function RunOn(ticket: Row, world: World, query: Compiled): Answer {
    match ParseSql(query.sql)
    case None => SyntaxError
    case Some(e) =>
      if Resolves(e, {"tickets"}, |query.params|) then Answered(Eval(e, world, map["tickets" := ticket], query.params))
      else UnresolvedName
  }
}
