/** The filter tree and its size measures. */
module FilterAst {
  import opened Basics
  import opened Json

  const MAX_DEPTH := 4
  const MAX_NODES := 50

  // Field and operator names are free strings in a stored filter. The names the
  // compiler knows are constructors; every other string is an Other... value.
  datatype FieldName =
    | Status | Priority | CategoryId | CategoryPath | TagId | AssignmentGroupId
    | AssigneeUserId | OrganizationId | SlaState | CreatedAt | UpdatedAt | ResolvedAt
    | HasJiraLink | AffectedArea | OtherField(name: string)

  datatype Operator =
    | OpEq | OpNeq | OpIn | OpNotIn | OpGt | OpGte | OpLt | OpLte | OpBetween
    | OpIsNull | OpIsNotNull | OpContains | OtherOperator(text: string)

  datatype GroupOp = AllOf | AnyOf

  datatype FilterNode =
    | Condition(field: FieldName, operator: Operator, value: Json)
    | Group(op: GroupOp, children: seq<FilterNode>)

  function Max(a: int, b: int): int {
    if a >= b then a else b
  }

  function CountNodes(node: FilterNode): nat
    decreases node
  {
    match node
    case Condition(_, _, _) => 1
    case Group(_, children) => CountAll(children)
  }

  function CountAll(children: seq<FilterNode>): nat
    decreases children
  {
    if children == [] then 0 else CountNodes(children[0]) + CountAll(children[1..])
  }

  function MaxDepth(node: FilterNode, currentDepth: nat): (d: nat)
    ensures d >= currentDepth
    decreases node
  {
    match node
    case Condition(_, _, _) => currentDepth
    case Group(_, children) =>
      if children == [] then currentDepth else MaxDepthAll(children, currentDepth + 1)
  }

  // Math.max over a non-empty list of children.
  function MaxDepthAll(children: seq<FilterNode>, currentDepth: nat): (d: nat)
    requires children != []
    ensures d >= currentDepth
    decreases children
  {
    var first := MaxDepth(children[0], currentDepth);
    if |children| == 1 then first else Max(first, MaxDepthAll(children[1..], currentDepth))
  }

  // The conditions of a filter, left to right.
  function Conditions(node: FilterNode): (cs: seq<FilterNode>)
    ensures forall c :: c in cs ==> c.Condition?
    decreases node
  {
    match node
    case Condition(_, _, _) => [node]
    case Group(_, children) => ConditionsOf(children)
  }

  function ConditionsOf(children: seq<FilterNode>): (cs: seq<FilterNode>)
    ensures forall c :: c in cs ==> c.Condition?
    decreases children
  {
    if children == [] then [] else Conditions(children[0]) + ConditionsOf(children[1..])
  }

  lemma {:induction false} CountIsConditions(node: FilterNode)
    ensures CountNodes(node) == |Conditions(node)|
    decreases node
  {
    if node.Group? {
      CountAllIsConditions(node.children);
    }
  }

  lemma {:induction false} CountAllIsConditions(children: seq<FilterNode>)
    ensures CountAll(children) == |ConditionsOf(children)|
    decreases children
  {
    if children != [] {
      CountIsConditions(children[0]);
      CountAllIsConditions(children[1..]);
    }
  }

  lemma {:induction false} ConditionsOfConcat(a: seq<FilterNode>, b: seq<FilterNode>)
    ensures ConditionsOf(a + b) == ConditionsOf(a) + ConditionsOf(b)
  {
    if a == [] {
      assert a + b == b;
    } else {
      assert (a + b)[1..] == a[1..] + b;
      ConditionsOfConcat(a[1..], b);
    }
  }

  lemma ConditionsOfLast(children: seq<FilterNode>, n: nat)
    requires 0 < n <= |children|
    ensures ConditionsOf(children[..n]) == ConditionsOf(children[..n - 1]) + Conditions(children[n - 1])
  {
    var last := [children[n - 1]];
    assert children[..n] == children[..n - 1] + last;
    ConditionsOfConcat(children[..n - 1], last);
    assert last[1..] == [] && ConditionsOf(last) == Conditions(children[n - 1]) + [];
  }

  lemma {:induction false} ChildConditions(children: seq<FilterNode>, i: nat)
    requires i < |children|
    ensures forall c :: c in Conditions(children[i]) ==> c in ConditionsOf(children)
  {
    if i > 0 {
      ChildConditions(children[1..], i - 1);
    }
  }

  // Depth counted from any level is the depth counted from zero plus that level.
  lemma {:induction false} MaxDepthShifts(node: FilterNode, k: nat)
    ensures MaxDepth(node, k) == MaxDepth(node, 0) + k
    decreases node
  {
    if node.Group? && node.children != [] {
      MaxDepthAllShifts(node.children, k + 1);
      MaxDepthAllShifts(node.children, 1);
    }
  }

  lemma {:induction false} MaxDepthAllShifts(children: seq<FilterNode>, k: nat)
    requires children != []
    ensures MaxDepthAll(children, k) == MaxDepthAll(children, 0) + k
    decreases children
  {
    MaxDepthShifts(children[0], k);
    if |children| > 1 {
      MaxDepthAllShifts(children[1..], k);
    }
  }

  // ----------------------------------------------------------------- nodes by path

  // The child positions that lead to a node.
  type Path = seq<nat>

  function NodeAt(node: FilterNode, path: Path): Option<FilterNode>
    decreases |path|
  {
    if path == [] then Some(node)
    else if node.Group? && path[0] < |node.children| then NodeAt(node.children[path[0]], path[1..])
    else None
  }

  lemma {:induction false} DepthAllBounds(children: seq<FilterNode>, k: nat, i: nat)
    requires i < |children|
    ensures MaxDepth(children[i], k) <= MaxDepthAll(children, k)
  {
    if i > 0 {
      DepthAllBounds(children[1..], k, i - 1);
    }
  }

  lemma {:induction false} PathWithinDepth(node: FilterNode, path: Path)
    requires NodeAt(node, path).Some?
    ensures |path| <= MaxDepth(node, 0)
    decreases |path|
  {
    if path != [] {
      PathWithinDepth(node.children[path[0]], path[1..]);
      MaxDepthShifts(node.children[path[0]], 1);
      DepthAllBounds(node.children, 1, path[0]);
    }
  }

  lemma {:induction false} DeepestChild(children: seq<FilterNode>, k: nat) returns (i: nat)
    requires children != []
    ensures i < |children| && MaxDepth(children[i], k) == MaxDepthAll(children, k)
  {
    i := 0;
    if |children| > 1 && MaxDepth(children[0], k) < MaxDepthAll(children[1..], k) {
      i := DeepestChild(children[1..], k);
      i := i + 1;
    }
  }

  lemma {:induction false} DeepestPath(node: FilterNode) returns (path: Path)
    ensures NodeAt(node, path).Some? && |path| == MaxDepth(node, 0)
    decreases node
  {
    path := [];
    if node.Group? && node.children != [] {
      var i := DeepestChild(node.children, 1);
      MaxDepthShifts(node.children[i], 1);
      var rest := DeepestPath(node.children[i]);
      path := [i] + rest;
      assert path[1..] == rest;
    }
  }

  // The depth is the length of the longest path to a node.
  lemma DepthIsLongestPath(node: FilterNode, d: nat)
    ensures MaxDepth(node, 0) <= d <==> forall path :: NodeAt(node, path).Some? ==> |path| <= d
  {
    forall path | NodeAt(node, path).Some?
      ensures |path| <= MaxDepth(node, 0)
    {
      PathWithinDepth(node, path);
    }
    var deepest := DeepestPath(node);
  }
}
