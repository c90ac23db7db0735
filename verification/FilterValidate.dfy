/** Semantic validation of a filter tree: the walk that collects errors, and what acceptance means. */
module FilterValidate {
  import opened Basics
  import opened Json
  import opened Text
  import opened FilterAst
  import opened FieldRegistry

  datatype ErrorCode =
    | UnknownField | OperatorNotAllowed | InvalidValue | DepthExceeded | NodeCountExceeded | EmptyInArray

  datatype ValidationError = ValidationError(path: string, code: ErrorCode)

  // The error array shared by the whole walk.
  class ErrorLog {
    var errors: seq<ValidationError>

    constructor ()
      ensures errors == []
    {
      errors := [];
    }

    method Push(path: string, code: ErrorCode)
      modifies this
      ensures errors == old(errors) + [ValidationError(path, code)]
    {
      errors := errors + [ValidationError(path, code)];
    }
  }

  // What a condition must satisfy, independent of how errors are reported.
  predicate WellFormed(c: FilterNode, catalog: Catalog)
    requires c.Condition?
  {
    var entry := catalog.lookup(c.field);
    entry.Some? &&
    c.operator in entry.value.allowed &&
    match c.operator
    case OpIsNull => true
    case OpIsNotNull => true
    case OpIn =>
      c.value.JArr? && c.value.items != [] && Accepts(ArrayValueSchema(entry.value), c.value, catalog.dates)
    case OpNotIn =>
      c.value.JArr? && c.value.items != [] && Accepts(ArrayValueSchema(entry.value), c.value, catalog.dates)
    case OpBetween =>
      c.value.JArr? && |c.value.items| == 2 &&
      (entry.value.rangeSchema.Some? ==> Accepts(entry.value.rangeSchema.value, c.value, catalog.dates))
    case _ => Accepts(entry.value.scalarSchema, c.value, catalog.dates)
  }

  // entry.arrayValueSchema ?? entry.scalarValueSchema.array().min(1)
  function ArrayValueSchema(entry: FieldEntry): Schema {
    match entry.arraySchema
    case Some(schema) => schema
    case None => ArraySchema(entry.scalarSchema, 1)
  }

  predicate AllWellFormed(cs: seq<FilterNode>, catalog: Catalog)
    requires forall c :: c in cs ==> c.Condition?
  {
    forall c :: c in cs ==> WellFormed(c, catalog)
  }

  lemma AllWellFormedConcat(a: seq<FilterNode>, b: seq<FilterNode>, catalog: Catalog)
    requires (forall c :: c in a ==> c.Condition?) && forall c :: c in b ==> c.Condition?
    ensures AllWellFormed(a + b, catalog) <==> AllWellFormed(a, catalog) && AllWellFormed(b, catalog)
  {
  }

  ghost predicate Valid(ast: FilterNode, catalog: Catalog) {
    MaxDepth(ast, 0) <= MAX_DEPTH &&
    |Conditions(ast)| <= MAX_NODES &&
    AllWellFormed(Conditions(ast), catalog)
  }

  function IssueErrors(prefix: string, paths: seq<string>): (errors: seq<ValidationError>)
    ensures |errors| == |paths|
  {
    seq(|paths|, i requires 0 <= i < |paths| => ValidationError(prefix + paths[i], InvalidValue))
  }

  // The errors of one condition, in the order they are pushed.
  function ConditionErrors(c: FilterNode, path: string, catalog: Catalog): (errors: seq<ValidationError>)
    requires c.Condition?
    ensures errors == [] <==> WellFormed(c, catalog)
  {
    match catalog.lookup(c.field)
    case None => [ValidationError(path + ".field", UnknownField)]
    case Some(entry) =>
      if c.operator !in entry.allowed then [ValidationError(path + ".operator", OperatorNotAllowed)]
      else if c.operator == OpIsNull || c.operator == OpIsNotNull then []
      else if c.operator == OpIn || c.operator == OpNotIn then
        if !c.value.JArr? || c.value.items == [] then [ValidationError(path + ".value", EmptyInArray)]
        else IssueErrors(path + ".value.", Issues(ArrayValueSchema(entry), c.value, catalog.dates))
      else if c.operator == OpBetween then
        if !c.value.JArr? || |c.value.items| != 2 then [ValidationError(path + ".value", InvalidValue)]
        else if entry.rangeSchema.Some? then
          IssueErrors(path + ".value.", Issues(entry.rangeSchema.value, c.value, catalog.dates))
        else []
      else ScalarErrors(path, Issues(entry.scalarSchema, c.value, catalog.dates))
  }

  // Scalar issues all carry the path of the value itself.
  function ScalarErrors(path: string, paths: seq<string>): (errors: seq<ValidationError>)
    ensures |errors| == |paths|
  {
    seq(|paths|, i requires 0 <= i < |paths| => ValidationError(path + ".value", InvalidValue))
  }

  function NodeErrors(node: FilterNode, path: string, catalog: Catalog): seq<ValidationError>
    decreases node
  {
    match node
    case Condition(_, _, _) => ConditionErrors(node, path, catalog)
    case Group(_, children) => ChildErrors(children, |children|, path, catalog)
  }

  function ChildPath(path: string, i: nat): string {
    path + ".children[" + NatText(i) + "]"
  }

  // The errors of the first n children.
  function ChildErrors(children: seq<FilterNode>, n: nat, path: string, catalog: Catalog): seq<ValidationError>
    requires n <= |children|
    decreases children, n
  {
    if n == 0 then []
    else ChildErrors(children, n - 1, path, catalog) + NodeErrors(children[n - 1], ChildPath(path, n - 1), catalog)
  }

  lemma ChildErrorsNext(before: seq<ValidationError>, children: seq<FilterNode>, i: nat, path: string, catalog: Catalog)
    requires i < |children|
    ensures before + ChildErrors(children, i + 1, path, catalog) ==
            before + ChildErrors(children, i, path, catalog) + NodeErrors(children[i], ChildPath(path, i), catalog)
  {
  }

  lemma {:induction false} NoErrorsIffWellFormed(node: FilterNode, path: string, catalog: Catalog)
    ensures NodeErrors(node, path, catalog) == [] <==> AllWellFormed(Conditions(node), catalog)
    decreases node
  {
    match node
    case Condition(_, _, _) =>
      assert node in Conditions(node);
    case Group(_, children) =>
      NoChildErrorsIffWellFormed(children, |children|, path, catalog);
      assert children[..|children|] == children;
  }

  lemma {:induction false} NoChildErrorsIffWellFormed(children: seq<FilterNode>, n: nat, path: string, catalog: Catalog)
    requires n <= |children|
    ensures ChildErrors(children, n, path, catalog) == [] <==> AllWellFormed(ConditionsOf(children[..n]), catalog)
    decreases children, n
  {
    if n > 0 {
      NoChildErrorsIffWellFormed(children, n - 1, path, catalog);
      NoErrorsIffWellFormed(children[n - 1], ChildPath(path, n - 1), catalog);
      ConditionsOfLast(children, n);
      AllWellFormedConcat(ConditionsOf(children[..n - 1]), Conditions(children[n - 1]), catalog);
    }
  }

  // ------------------------------------------------------------ what the errors say

  // What is wrong with a condition that gets a code.
  predicate Says(code: ErrorCode, c: FilterNode, catalog: Catalog)
    requires c.Condition?
  {
    var entry := catalog.lookup(c.field);
    var isKnown := entry.Some?;
    var isAllowed := isKnown && c.operator in entry.value.allowed;
    var isEmptyList := (c.operator == OpIn || c.operator == OpNotIn) && (!c.value.JArr? || c.value.items == []);
    match code
    case UnknownField => !isKnown
    case OperatorNotAllowed => isKnown && !isAllowed
    case EmptyInArray => isAllowed && isEmptyList
    case InvalidValue => isAllowed && !isEmptyList && !WellFormed(c, catalog)
    case _ => false
  }

  function PathText(path: Path): string {
    if path == [] then "" else ".children[" + NatText(path[0]) + "]" + PathText(path[1..])
  }

  // An error names the condition at a path and says what is wrong with it.
  ghost predicate Reports(error: ValidationError, node: FilterNode, at: string, path: Path, catalog: Catalog) {
    NodeAt(node, path).Some? && NodeAt(node, path).value.Condition? &&
    at + PathText(path) + "." <= error.path && Says(error.code, NodeAt(node, path).value, catalog)
  }

  ghost predicate IsReported(error: ValidationError, node: FilterNode, at: string, catalog: Catalog) {
    exists path :: Reports(error, node, at, path, catalog)
  }

  lemma ConditionErrorsSay(c: FilterNode, path: string, catalog: Catalog)
    requires c.Condition?
    ensures forall e :: e in ConditionErrors(c, path, catalog) ==> path + "." <= e.path && Says(e.code, c, catalog)
  {
  }

  lemma PathTextStep(at: string, i: nat, rest: Path)
    ensures ChildPath(at, i) + PathText(rest) == at + PathText([i] + rest)
  {
    assert ([i] + rest)[1..] == rest;
  }

  // Every error names a condition of the tree and what is wrong with it.
  lemma {:induction false} ErrorsAreReports(node: FilterNode, at: string, catalog: Catalog, e: ValidationError)
    requires e in NodeErrors(node, at, catalog)
    ensures IsReported(e, node, at, catalog)
    decreases node
  {
    match node
    case Condition(_, _, _) =>
      ConditionErrorsSay(node, at, catalog);
      assert at + PathText([]) == at;
      assert Reports(e, node, at, [], catalog);
    case Group(_, children) =>
      var i := ErrorOfChild(children, |children|, at, catalog, e);
      ErrorsAreReports(children[i], ChildPath(at, i), catalog, e);
      var rest :| Reports(e, children[i], ChildPath(at, i), rest, catalog);
      PathTextStep(at, i, rest);
      assert ([i] + rest)[1..] == rest;
      assert Reports(e, node, at, [i] + rest, catalog);
  }

  lemma {:induction false} ErrorOfChild(children: seq<FilterNode>, n: nat, at: string, catalog: Catalog,
                                        e: ValidationError)
    returns (i: nat)
    requires n <= |children| && e in ChildErrors(children, n, at, catalog)
    ensures i < n && e in NodeErrors(children[i], ChildPath(at, i), catalog)
    decreases n
  {
    if e in NodeErrors(children[n - 1], ChildPath(at, n - 1), catalog) {
      i := n - 1;
    } else {
      i := ErrorOfChild(children, n - 1, at, catalog, e);
    }
  }

  // And every ill-formed condition has one.
  lemma {:induction false} FaultsAreReported(node: FilterNode, at: string, catalog: Catalog, path: Path)
    returns (e: ValidationError)
    requires NodeAt(node, path).Some? && NodeAt(node, path).value.Condition?
    requires !WellFormed(NodeAt(node, path).value, catalog)
    ensures e in NodeErrors(node, at, catalog) && Reports(e, node, at, path, catalog)
    decreases |path|
  {
    if path == [] {
      e := ConditionErrors(node, at, catalog)[0];
      ConditionErrorsSay(node, at, catalog);
      assert at + PathText([]) == at;
    } else {
      var i, rest := path[0], path[1..];
      e := FaultsAreReported(node.children[i], ChildPath(at, i), catalog, rest);
      ChildErrorsIncluded(node.children, |node.children|, i, at, catalog, e);
      PathTextStep(at, i, rest);
      assert path == [i] + rest;
    }
  }

  lemma {:induction false} ChildErrorsIncluded(children: seq<FilterNode>, n: nat, i: nat, at: string,
                                               catalog: Catalog, e: ValidationError)
    requires i < n <= |children| && e in NodeErrors(children[i], ChildPath(at, i), catalog)
    ensures e in ChildErrors(children, n, at, catalog)
    decreases n
  {
    if i < n - 1 {
      ChildErrorsIncluded(children, n - 1, i, at, catalog, e);
    }
  }

  // ------------------------------------------------------------------- the program

  method PushIssues(log: ErrorLog, prefix: string, paths: seq<string>)
    modifies log
    ensures log.errors == old(log.errors) + IssueErrors(prefix, paths)
  {
    var i := 0;
    while i < |paths|
      invariant 0 <= i <= |paths|
      invariant log.errors == old(log.errors) + IssueErrors(prefix, paths)[..i]
    {
      log.Push(prefix + paths[i], InvalidValue);
      i := i + 1;
    }
  }

  method ValidateCondition(c: FilterNode, log: ErrorLog, path: string, catalog: Catalog)
    requires c.Condition?
    modifies log
    ensures log.errors == old(log.errors) + ConditionErrors(c, path, catalog)
  {
    var found := catalog.lookup(c.field);
    if found.None? {
      log.Push(path + ".field", UnknownField);
      return;
    }
    var entry := found.value;
    if c.operator !in entry.allowed {
      log.Push(path + ".operator", OperatorNotAllowed);
      return;
    }
    if c.operator == OpIsNull || c.operator == OpIsNotNull {
      return;
    }
    if c.operator == OpIn || c.operator == OpNotIn {
      if !c.value.JArr? || c.value.items == [] {
        log.Push(path + ".value", EmptyInArray);
        return;
      }
      PushIssues(log, path + ".value.", Issues(ArrayValueSchema(entry), c.value, catalog.dates));
      return;
    }
    if c.operator == OpBetween {
      if !c.value.JArr? || |c.value.items| != 2 {
        log.Push(path + ".value", InvalidValue);
        return;
      }
      if entry.rangeSchema.Some? {
        PushIssues(log, path + ".value.", Issues(entry.rangeSchema.value, c.value, catalog.dates));
      }
      return;
    }
    var issues := Issues(entry.scalarSchema, c.value, catalog.dates);
    var i := 0;
    while i < |issues|
      invariant 0 <= i <= |issues|
      invariant log.errors == old(log.errors) + ScalarErrors(path, issues)[..i]
    {
      log.Push(path + ".value", InvalidValue);
      i := i + 1;
    }
  }

  method ValidateNode(node: FilterNode, log: ErrorLog, path: string, catalog: Catalog)
    modifies log
    ensures log.errors == old(log.errors) + NodeErrors(node, path, catalog)
    decreases node
  {
    match node
    case Condition(_, _, _) =>
      ValidateCondition(node, log, path, catalog);
    case Group(_, children) =>
      var i := 0;
      while i < |children|
        invariant 0 <= i <= |children|
        invariant log.errors == old(log.errors) + ChildErrors(children, i, path, catalog)
      {
        ValidateNode(children[i], log, ChildPath(path, i), catalog);
        ChildErrorsNext(old(log.errors), children, i, path, catalog);
        i := i + 1;
      }
  }

  // Acceptance is exactly validity, and a rejection always names at least one error.
  method ValidateFilterAst(ast: FilterNode, catalog: Catalog) returns (r: Result<FilterNode, seq<ValidationError>>)
    ensures r.Ok? <==> Valid(ast, catalog)
    ensures r.Ok? ==> r.value == ast
    ensures r.Err? ==> r.error != [] && forall e :: e in r.error ==>
              if e.code == DepthExceeded then e.path == "root" && MaxDepth(ast, 0) > 4
              else if e.code == NodeCountExceeded then e.path == "root" && |Conditions(ast)| > 50
              else IsReported(e, ast, "root", catalog)
    ensures r.Err? && MaxDepth(ast, 0) > 4 ==> ValidationError("root", DepthExceeded) in r.error
    ensures r.Err? && |Conditions(ast)| > 50 ==> ValidationError("root", NodeCountExceeded) in r.error
  {
    var log := new ErrorLog();
    var depth := MaxDepth(ast, 0);
    if depth > MAX_DEPTH {
      log.Push("root", DepthExceeded);
    }
    var nodeCount := CountNodes(ast);
    CountIsConditions(ast);
    if nodeCount > MAX_NODES {
      log.Push("root", NodeCountExceeded);
    }
    ValidateNode(ast, log, "root", catalog);
    NoErrorsIffWellFormed(ast, "root", catalog);
    forall e | e in NodeErrors(ast, "root", catalog)
      ensures IsReported(e, ast, "root", catalog)
    {
      ErrorsAreReports(ast, "root", catalog, e);
    }
    if |log.errors| > 0 {
      return Err(log.errors);
    }
    return Ok(ast);
  }
}
