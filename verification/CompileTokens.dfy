/**
 * The compiled text read back: every compiled filter lexes to the tokens below
 * and parses to the expression below.
 */
module CompileTokens {
  import opened Basics
  import opened Json
  import opened FilterAst
  import opened FieldRegistry
  import opened FilterCompile
  import opened SqlSyntax

  // -------------------------------------------------- what the catalog promises

  datatype ColumnName = ColumnName(table: string, column: string)

  // A registry entry whose column text is `"table"."column"`, with names that need no escaping.
  ghost predicate NamesColumn(entry: FieldEntry, name: ColumnName) {
    PlainName(name.table) && PlainName(name.column) &&
    entry.column == Quoted(name.table) + "." + Quoted(name.column) &&
    match entry.join
    case None => name.table == "tickets"
    case Some(join) =>
      join.table != "tickets" && PlainName(join.table) && PlainName(join.joinColumn) && PlainName(join.valueColumn) &&
      name == ColumnName(join.table, join.valueColumn)
  }

  // Which column each registry field stands for.
  type Naming = FieldName -> ColumnName

  ghost predicate CatalogNames(catalog: Catalog, naming: Naming) {
    forall f :: catalog.lookup(f).Some? ==> NamesColumn(catalog.lookup(f).value, naming(f))
  }

  // -------------------------------------------------------- parameter counts

  function Arity(c: FilterNode): nat
    requires c.Condition?
  {
    match c.operator
    case OpIsNull => 0
    case OpIsNotNull => 0
    case OpIn => if c.value.JArr? then |c.value.items| else 0
    case OpNotIn => if c.value.JArr? then |c.value.items| else 0
    case OpBetween => 2
    case _ => 1
  }

  function NodeArity(node: FilterNode): nat
    decreases node
  {
    match node
    case Condition(_, _, _) => Arity(node)
    case Group(_, children) => Offset(children, |children|)
  }

  // How many parameters the first k children bind.
  function Offset(children: seq<FilterNode>, k: nat): nat
    requires k <= |children|
    decreases children, k
  {
    if k == 0 then 0 else Offset(children, k - 1) + NodeArity(children[k - 1])
  }

  lemma {:induction false} OffsetGrows(children: seq<FilterNode>, i: nat, k: nat)
    requires i <= k <= |children|
    ensures Offset(children, i) <= Offset(children, k)
    decreases k
  {
    if i < k {
      OffsetGrows(children, i, k - 1);
    }
  }

  lemma ConditionArity(c: FilterNode, n: nat, catalog: Catalog)
    requires c.Condition? && CompileCondition(c, n, catalog).Ok?
    ensures |CompileCondition(c, n, catalog).value.params| == Arity(c)
  {
  }

  lemma {:induction false} ArityIsParams(node: FilterNode, n: nat, catalog: Catalog)
    requires CompileNode(node, n, catalog).Ok?
    ensures |CompileNode(node, n, catalog).value.params| == NodeArity(node)
    decreases node
  {
    match node
    case Condition(_, _, _) => ConditionArity(node, n, catalog);
    case Group(_, children) =>
      if children != [] {
        OffsetIsParams(children, |children|, n, catalog);
      }
  }

  lemma {:induction false} OffsetIsParams(children: seq<FilterNode>, k: nat, n: nat, catalog: Catalog)
    requires k <= |children| && CompileChildren(children, k, n, catalog).Ok?
    ensures |CompileChildren(children, k, n, catalog).value.params| == Offset(children, k)
    decreases children, k
  {
    hide FilterCompile.CompileCondition;
    if k > 0 {
      OffsetIsParams(children, k - 1, n, catalog);
      ArityIsParams(children[k - 1], n + Offset(children, k - 1), catalog);
    }
  }

  lemma OffsetIsLength(children: seq<FilterNode>, k: nat, n: nat, catalog: Catalog, parts: Parts)
    requires k <= |children| && CompileChildren(children, k, n, catalog) == Ok(parts)
    ensures |parts.params| == Offset(children, k)
  {
    OffsetIsParams(children, k, n, catalog);
  }

  // ---------------------------------------------------- the parts of a group

  // A way to compile one node when some parameters are already bound.
  type NodeCompiler = (FilterNode, nat) -> Result<Compiled, CompileError>

  function CompilerOf(catalog: Catalog): NodeCompiler {
    (node: FilterNode, n: nat) => CompileNode(node, n, catalog)
  }

  // Threading the parameters through the first k children, for any way to compile one.
  function PartsWith(compile: NodeCompiler, children: seq<FilterNode>, k: nat, n: nat): (r: Result<Parts, CompileError>)
    requires k <= |children|
    ensures r.Ok? ==> |r.value.texts| == k
    decreases k
  {
    if k == 0 then Ok(Parts([], []))
    else
      match PartsWith(compile, children, k - 1, n)
      case Err(e) => Err(e)
      case Ok(before) =>
        match compile(children[k - 1], n + |before.params|)
        case Err(e) => Err(e)
        case Ok(c) => Ok(Parts(before.texts + [c.sql], before.params + c.params))
  }

  lemma {:induction false} PartsAgree(children: seq<FilterNode>, k: nat, n: nat, catalog: Catalog)
    requires k <= |children|
    ensures CompileChildren(children, k, n, catalog) == PartsWith(CompilerOf(catalog), children, k, n)
    decreases k
  {
    if k > 0 {
      PartsAgree(children, k - 1, n, catalog);
      var before := CompileChildren(children, k - 1, n, catalog);
      if before.Ok? {
        NextAgrees(children, k - 1, n, catalog, before.value);
      }
    }
  }

  lemma NextAgrees(children: seq<FilterNode>, k: nat, n: nat, catalog: Catalog, before: Parts)
    requires k < |children| && CompileChildren(children, k, n, catalog) == Ok(before)
    requires PartsWith(CompilerOf(catalog), children, k, n) == Ok(before)
    ensures CompileChildren(children, k + 1, n, catalog) == PartsWith(CompilerOf(catalog), children, k + 1, n)
  {
    var next := CompilerOf(catalog)(children[k], n + |before.params|);
    NextPart(children, k, n, catalog, before, next);
    NextPartWith(CompilerOf(catalog), children, k, n, before, next);
  }

  lemma NextPartWith(compile: NodeCompiler, children: seq<FilterNode>, k: nat, n: nat, before: Parts,
                     next: Result<Compiled, CompileError>)
    requires k < |children| && PartsWith(compile, children, k, n) == Ok(before)
    requires next == compile(children[k], n + |before.params|)
    ensures PartsWith(compile, children, k + 1, n) ==
            match next
            case Ok(c) => Ok(Parts(before.texts + [c.sql], before.params + c.params))
            case Err(e) => Err(e)
  {
  }

  predicate IsSlice<T(==)>(all: seq<T>, lo: nat, part: seq<T>) {
    lo + |part| <= |all| && forall j :: 0 <= j < |part| ==> part[j] == all[lo + j]
  }

  lemma PrefixSlice<T>(a: seq<T>, b: seq<T>, lo: nat, part: seq<T>)
    requires IsSlice(a, lo, part)
    ensures IsSlice(a + b, lo, part)
  {
  }

  lemma SuffixSlice<T>(a: seq<T>, b: seq<T>)
    ensures IsSlice(a + b, |a|, b)
  {
  }

  // Each child sees the parameters of the children before it, and its own text and
  // parameters are in their place among those of the group.
  lemma {:induction false} PartAt(compile: NodeCompiler, children: seq<FilterNode>, k: nat, i: nat, n: nat,
                                  parts: Parts)
    returns (before: Parts, child: Compiled)
    requires i < k <= |children| && PartsWith(compile, children, k, n) == Ok(parts)
    ensures PartsWith(compile, children, i, n) == Ok(before) && compile(children[i], n + |before.params|) == Ok(child)
    ensures parts.texts[i] == child.sql && IsSlice(parts.params, |before.params|, child.params)
    decreases k
  {
    var front := PartsWith(compile, children, k - 1, n).value;
    var last := compile(children[k - 1], n + |front.params|).value;
    if i == k - 1 {
      before, child := front, last;
      SuffixSlice(front.params, last.params);
    } else {
      before, child := PartAt(compile, children, k - 1, i, n, front);
      PrefixSlice(front.params, last.params, |before.params|, child.params);
    }
  }

  // A child's place in the group: the parts before it, and its own text and parameters.
  predicate IsPart(compile: NodeCompiler, children: seq<FilterNode>, i: nat, n: nat, parts: Parts, before: Parts,
                   child: Compiled)
    requires i < |children|
  {
    PartsWith(compile, children, i, n) == Ok(before) && compile(children[i], n + |before.params|) == Ok(child) &&
    i < |parts.texts| && parts.texts[i] == child.sql && IsSlice(parts.params, |before.params|, child.params)
  }

  lemma ChildPart(children: seq<FilterNode>, i: nat, n: nat, catalog: Catalog, parts: Parts)
    returns (before: Parts, child: Compiled)
    requires i < |children| && CompileChildren(children, |children|, n, catalog) == Ok(parts)
    ensures IsPart(CompilerOf(catalog), children, i, n, parts, before, child)
  {
    PartsAgree(children, |children|, n, catalog);
    before, child := PartAt(CompilerOf(catalog), children, |children|, i, n, parts);
  }

  lemma ChildCompiles(children: seq<FilterNode>, i: nat, n: nat, catalog: Catalog, parts: Parts)
    returns (child: Compiled, lo: nat)
    requires i < |children| && CompileChildren(children, |children|, n, catalog) == Ok(parts)
    ensures lo == Offset(children, i) && CompileNode(children[i], n + lo, catalog) == Ok(child)
    ensures parts.texts[i] == child.sql && IsSlice(parts.params, lo, child.params)
  {
    hide FilterCompile.CompileCondition;
    var before, part := ChildPart(children, i, n, catalog, parts);
    PartIsCompiled(children, i, n, catalog, before, part);
    child, lo := part, |before.params|;
  }

  lemma PartIsCompiled(children: seq<FilterNode>, i: nat, n: nat, catalog: Catalog, before: Parts, child: Compiled)
    requires i < |children| && PartsWith(CompilerOf(catalog), children, i, n) == Ok(before)
    requires CompilerOf(catalog)(children[i], n + |before.params|) == Ok(child)
    ensures |before.params| == Offset(children, i)
    ensures CompileNode(children[i], n + |before.params|, catalog) == Ok(child)
  {
    PartsAgree(children, i, n, catalog);
    OffsetIsLength(children, i, n, catalog, before);
  }

  lemma ChildSucceeds(children: seq<FilterNode>, i: nat, n: nat, catalog: Catalog) returns (child: Compiled)
    requires i < |children| && CompileChildren(children, |children|, n, catalog).Ok?
    ensures CompileNode(children[i], n + Offset(children, i), catalog) == Ok(child)
  {
    var lo;
    child, lo := ChildCompiles(children, i, n, catalog, CompileChildren(children, |children|, n, catalog).value);
  }

  // ------------------------------------------------------------------ tokens

  function ColumnTokens(name: ColumnName, rest: List<Token>): List<Token> {
    Cons(Name(name.table), Cons(Dot, Cons(Name(name.column), rest)))
  }

  // $a, $a+1, ... (k of them)
  function PlaceholderTokens(a: nat, k: nat, rest: List<Token>): List<Token>
    requires k > 0
    decreases k
  {
    Cons(Placeholder(a), if k == 1 then rest else Cons(Comma, PlaceholderTokens(a + 1, k - 1, rest)))
  }

  function ExistsTokens(join: ExistsJoin, rest: List<Token>): List<Token> {
    Cons(KwExists, Cons(LParen, Cons(KwSelect, Cons(Number(1), Cons(KwFrom, Cons(Name(join.table), Cons(KwWhere,
      ColumnTokens(ColumnName(join.table, join.joinColumn), Cons(Compare(CmpEq),
      ColumnTokens(ColumnName("tickets", "id"), rest))))))))))
  }

  function CompareOf(op: Operator): CompareOp {
    match op
    case OpNeq => CmpNeq
    case OpGt => CmpGt
    case OpGte => CmpGte
    case OpLt => CmpLt
    case OpLte => CmpLte
    case _ => CmpEq
  }

  function ExistsInTokens(join: ExistsJoin, n: nat, k: nat, rest: List<Token>): List<Token>
    requires k > 0
  {
    ExistsTokens(join, Cons(KwAnd, ColumnTokens(ColumnName(join.table, join.valueColumn), Cons(KwIn, Cons(LParen,
      PlaceholderTokens(n + 1, k, Cons(RParen, Cons(RParen, rest))))))))
  }

  function ConditionTokens(c: FilterNode, n: nat, entry: FieldEntry, name: ColumnName, rest: List<Token>): List<Token>
    requires c.Condition?
  {
    match c.operator
    case OpIsNull =>
      (match entry.join
       case Some(join) => Cons(KwNot, ExistsTokens(join, Cons(RParen, rest)))
       case None => ColumnTokens(name, Cons(KwIs, Cons(KwNull, rest))))
    case OpIsNotNull =>
      (match entry.join
       case Some(join) => ExistsTokens(join, Cons(RParen, rest))
       case None => ColumnTokens(name, Cons(KwIs, Cons(KwNot, Cons(KwNull, rest)))))
    case OpIn =>
      if Arity(c) == 0 then Nil
      else (match entry.join
            case Some(join) => ExistsInTokens(join, n, Arity(c), rest)
            case None =>
              ColumnTokens(name, Cons(KwIn, Cons(LParen, PlaceholderTokens(n + 1, Arity(c), Cons(RParen, rest))))))
    case OpNotIn =>
      if Arity(c) == 0 then Nil
      else (match entry.join
            case Some(join) => Cons(KwNot, ExistsInTokens(join, n, Arity(c), rest))
            case None =>
              ColumnTokens(name,
                Cons(KwNot, Cons(KwIn, Cons(LParen, PlaceholderTokens(n + 1, Arity(c), Cons(RParen, rest)))))))
    case OpBetween =>
      ColumnTokens(name, Cons(KwBetween, Cons(Placeholder(n + 1), Cons(KwAnd, Cons(Placeholder(n + 2), rest)))))
    case OpContains => ColumnTokens(name, Cons(KwILike, Cons(Placeholder(n + 1), rest)))
    case op => ColumnTokens(name, Cons(Compare(CompareOf(op)), Cons(Placeholder(n + 1), rest)))
  }

  function Joiner(op: GroupOp): Token {
    if op == AllOf then KwAnd else KwOr
  }

  function NodeTokens(node: FilterNode, n: nat, catalog: Catalog, naming: Naming, rest: List<Token>): List<Token>
    decreases node
  {
    match node
    case Condition(f, _, _) =>
      if catalog.lookup(f).None? then Nil
      else ConditionTokens(node, n, catalog.lookup(f).value, naming(f), rest)
    case Group(op, children) =>
      if children == [] then Cons(if op == AllOf then KwTrue else KwFalse, rest)
      else Cons(LParen, ChildTokens(children, 0, n, op, catalog, naming, Cons(RParen, rest)))
  }

  // The tokens of children[i..] with joiners between them.
  function ChildTokens(children: seq<FilterNode>, i: nat, n: nat, op: GroupOp, catalog: Catalog, naming: Naming,
                       rest: List<Token>): List<Token>
    requires i < |children|
    decreases children, |children| - i
  {
    NodeTokens(children[i], n + Offset(children, i), catalog, naming,
               if i + 1 == |children| then rest
               else Cons(Joiner(op), ChildTokens(children, i + 1, n, op, catalog, naming, rest)))
  }

  // ------------------------------------------------------------- expressions

  function ParamOperands(a: nat, k: nat): List<Operand>
    requires k > 0
    decreases k
  {
    Cons(Param(a), if k == 1 then Nil else ParamOperands(a + 1, k - 1))
  }

  function ExistsFilter(join: ExistsJoin): Expr {
    Comparison(CmpEq, Column(join.table, join.joinColumn), Column("tickets", "id"))
  }

  function ExistsInExpr(join: ExistsJoin, n: nat, k: nat): Expr
    requires k > 0
  {
    Exists(join.table, And(ExistsFilter(join), In(Column(join.table, join.valueColumn), ParamOperands(n + 1, k))))
  }

  function ConditionExpr(c: FilterNode, n: nat, entry: FieldEntry, name: ColumnName): Expr
    requires c.Condition?
  {
    var x := Column(name.table, name.column);
    match c.operator
    case OpIsNull =>
      (match entry.join
       case Some(join) => Not(Exists(join.table, ExistsFilter(join)))
       case None => IsNull(x))
    case OpIsNotNull =>
      (match entry.join
       case Some(join) => Exists(join.table, ExistsFilter(join))
       case None => Not(IsNull(x)))
    case OpIn =>
      if Arity(c) == 0 then Const(false)
      else (match entry.join
            case Some(join) => ExistsInExpr(join, n, Arity(c))
            case None => In(x, ParamOperands(n + 1, Arity(c))))
    case OpNotIn =>
      if Arity(c) == 0 then Const(false)
      else (match entry.join
            case Some(join) => Not(ExistsInExpr(join, n, Arity(c)))
            case None => Not(In(x, ParamOperands(n + 1, Arity(c)))))
    case OpBetween => Between(x, Param(n + 1), Param(n + 2))
    case OpContains => ILikes(x, Param(n + 1))
    case op => Comparison(CompareOf(op), x, Param(n + 1))
  }

  function NodeExpr(node: FilterNode, n: nat, catalog: Catalog, naming: Naming): Expr
    decreases node
  {
    match node
    case Condition(f, _, _) =>
      if catalog.lookup(f).None? then Const(false)
      else ConditionExpr(node, n, catalog.lookup(f).value, naming(f))
    case Group(op, children) =>
      if children == [] then Const(op == AllOf)
      else ChainExpr(children, |children|, n, op, catalog, naming)
  }

  // The first k children joined from the left.
  function ChainExpr(children: seq<FilterNode>, k: nat, n: nat, op: GroupOp, catalog: Catalog, naming: Naming): Expr
    requires 0 < k <= |children|
    decreases children, k
  {
    var last := NodeExpr(children[k - 1], n + Offset(children, k - 1), catalog, naming);
    if k == 1 then last
    else
      var before := ChainExpr(children, k - 1, n, op, catalog, naming);
      if op == AllOf then And(before, last) else Or(before, last)
  }
}
