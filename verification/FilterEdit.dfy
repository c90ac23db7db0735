/** Editing a filter in the queue UI: listing its conditions as chips, removing one, adding one. */
module FilterEdit {
  import opened Basics
  import opened FilterAst
  import opened FieldRegistry
  import opened FilterValidate
  import opened SqlSemantics
  import opened CompileTokens
  import opened FilterMeaning

  datatype Chip = Chip(condition: FilterNode, path: Path)

  // Every condition with the child positions that lead to it, left to right.
  function CollectConditions(node: FilterNode, path: Path): seq<Chip>
    decreases node
  {
    match node
    case Condition(_, _, _) => [Chip(node, path)]
    case Group(_, children) => CollectChildren(children, |children|, path)
  }

  function CollectChildren(children: seq<FilterNode>, k: nat, path: Path): seq<Chip>
    requires k <= |children|
    decreases children, k
  {
    if k == 0 then []
    else CollectChildren(children, k - 1, path) + CollectConditions(children[k - 1], path + [k - 1])
  }

  function Without<T>(s: seq<T>, i: nat): seq<T> {
    if i < |s| then s[..i] + s[i + 1..] else s
  }

  // The filter without the node at a path; None when nothing is left.
  function RemoveAtPath(node: FilterNode, path: Path): Option<FilterNode>
    decreases |path|, 0
  {
    if path == [] || !node.Group? then None
    else
      var head, rest := path[0], path[1..];
      if rest == [] then
        var next := Without(node.children, head);
        if next == [] then None
        else if |next| == 1 && next[0].Condition? then Some(next[0])
        else Some(Group(node.op, next))
      else
        var next := RemoveInChild(node.children, head, rest);
        if next == [] then None
        else if |next| == 1 then Some(next[0])
        else Some(Group(node.op, next))
  }

  // Children with one of them edited, and dropped when nothing of it is left.
  function RemoveInChild(children: seq<FilterNode>, head: nat, rest: Path): seq<FilterNode>
    requires rest != []
    decreases |rest|, 1
  {
    if head >= |children| then children
    else
      match RemoveAtPath(children[head], rest)
      case None => Without(children, head)
      case Some(child) => children[head := child]
  }

  // What the drawer applies: the condition is and-ed to the current filter.
  function AddCondition(current: Option<FilterNode>, condition: FilterNode): FilterNode {
    match current
    case None => condition
    case Some(f) =>
      if f.Group? && f.op == AllOf then Group(AllOf, f.children + [condition])
      else Group(AllOf, [f, condition])
  }

  // ------------------------------------------------------------ no filter at all

  function ConditionsIn(f: Option<FilterNode>): seq<FilterNode> {
    match f
    case None => []
    case Some(node) => Conditions(node)
  }

  function DepthOf(f: Option<FilterNode>): nat {
    match f
    case None => 0
    case Some(node) => MaxDepth(node, 0)
  }

  ghost predicate ValidFilter(f: Option<FilterNode>, catalog: Catalog) {
    f.Some? ==> Valid(f.value, catalog)
  }

  // No filter lets every ticket through.
  ghost function FilterMeans(f: Option<FilterNode>, ticket: Row, world: World, attributes: Attributes,
                             dates: Dates): Tri {
    match f
    case None => Yes
    case Some(node) => Meaning(node, ticket, world, attributes, dates)
  }

  // ------------------------------------------------------------------- listing

  function Prefixed(path: Path, chips: seq<Chip>): (r: seq<Chip>)
    ensures |r| == |chips|
  {
    seq(|chips|, i requires 0 <= i < |chips| => Chip(chips[i].condition, path + chips[i].path))
  }

  lemma PrefixedConcat(path: Path, a: seq<Chip>, b: seq<Chip>)
    ensures Prefixed(path, a + b) == Prefixed(path, a) + Prefixed(path, b)
  {
  }

  lemma {:induction false} CollectIsPrefixed(node: FilterNode, path: Path)
    ensures CollectConditions(node, path) == Prefixed(path, CollectConditions(node, []))
    decreases node
  {
    match node
    case Condition(_, _, _) =>
      assert path + [] == path;
    case Group(_, children) => CollectChildrenIsPrefixed(children, |children|, path);
  }

  lemma {:induction false} CollectChildrenIsPrefixed(children: seq<FilterNode>, k: nat, path: Path)
    requires k <= |children|
    ensures CollectChildren(children, k, path) == Prefixed(path, CollectChildren(children, k, []))
    decreases children, k
  {
    if k > 0 {
      var here := [k - 1];
      CollectChildrenIsPrefixed(children, k - 1, path);
      CollectIsPrefixed(children[k - 1], path + here);
      CollectIsPrefixed(children[k - 1], here);
      var local := CollectConditions(children[k - 1], []);
      assert [] + here == here;
      assert Prefixed(path + here, local) == Prefixed(path, Prefixed(here, local)) by {
        assert forall i :: 0 <= i < |local| ==> (path + here) + local[i].path == path + (here + local[i].path);
      }
      PrefixedConcat(path, CollectChildren(children, k - 1, []), Prefixed(here, local));
    }
  }

  predicate ListsConditions(chips: seq<Chip>, cs: seq<FilterNode>) {
    |chips| == |cs| && forall i :: 0 <= i < |cs| ==> chips[i].condition == cs[i]
  }

  // The chips are the conditions, in order.
  lemma {:induction false} ChipsAreConditions(node: FilterNode, path: Path)
    ensures ListsConditions(CollectConditions(node, path), Conditions(node))
    decreases node
  {
    if node.Group? {
      ChildChipsAreConditions(node.children, |node.children|, path);
      assert node.children[..|node.children|] == node.children;
    }
  }

  lemma {:induction false} ChildChipsAreConditions(children: seq<FilterNode>, k: nat, path: Path)
    requires k <= |children|
    ensures ListsConditions(CollectChildren(children, k, path), ConditionsOf(children[..k]))
    decreases children, k
  {
    if k > 0 {
      ChildChipsAreConditions(children, k - 1, path);
      ChipsAreConditions(children[k - 1], path + [k - 1]);
      ConditionsOfLast(children, k);
    }
  }

  // Which child holds the k-th chip, and which of its chips it is.
  lemma {:induction false} ChipInChild(children: seq<FilterNode>, m: nat, k: nat) returns (i: nat, j: nat)
    requires m <= |children| && k < |CollectChildren(children, m, [])|
    ensures i < m && j < |CollectConditions(children[i], [])|
    ensures var chip := CollectConditions(children[i], [])[j];
      CollectChildren(children, m, [])[k] == Chip(chip.condition, [i] + chip.path)
    ensures k == |ConditionsOf(children[..i])| + j
    decreases m
  {
    var before := CollectChildren(children, m - 1, []);
    if k < |before| {
      i, j := ChipInChild(children, m - 1, k);
    } else {
      i, j := m - 1, k - |before|;
      ChildChipsAreConditions(children, m - 1, []);
      CollectIsPrefixed(children[i], [] + [i]);
      assert [] + [i] == [i];
    }
  }

  // ------------------------------------------------------------------- removing

  lemma ConditionsAround(children: seq<FilterNode>, i: nat)
    requires i < |children|
    ensures ConditionsOf(children) ==
            ConditionsOf(children[..i]) + Conditions(children[i]) + ConditionsOf(children[i + 1..])
    ensures ConditionsOf(Without(children, i)) == ConditionsOf(children[..i]) + ConditionsOf(children[i + 1..])
    ensures forall c :: ConditionsOf(children[i := c]) ==
              ConditionsOf(children[..i]) + Conditions(c) + ConditionsOf(children[i + 1..])
  {
    ConditionsOfConcat(children[..i], children[i + 1..]);
    forall c
      ensures ConditionsOf(children[i := c]) ==
              ConditionsOf(children[..i]) + Conditions(c) + ConditionsOf(children[i + 1..])
    {
      assert children[i := c] == children[..i] + ([c] + children[i + 1..]);
      ConditionsOfConcat(children[..i], [c] + children[i + 1..]);
      assert ([c] + children[i + 1..])[1..] == children[i + 1..];
    }
    assert children[i := children[i]] == children;
  }

  lemma OnlyConditions(op: GroupOp, child: FilterNode)
    ensures Conditions(Group(op, [child])) == Conditions(child) && Conditions(child) + [] == Conditions(child)
  {
    assert [child][1..] == [];
    assert ConditionsOf([child]) == Conditions(child) + [];
  }

  // Removing the k-th chip removes exactly the k-th condition.
  lemma {:induction false} RemovesOneCondition(node: FilterNode, k: nat)
    requires k < |CollectConditions(node, [])|
    ensures ConditionsIn(RemoveAtPath(node, CollectConditions(node, [])[k].path)) == Without(Conditions(node), k)
    decreases node
  {
    ChipsAreConditions(node, []);
    match node
    case Condition(_, _, _) =>
    case Group(op, children) =>
      var i, j := ChipInChild(children, |children|, k);
      var sub := CollectConditions(children[i], [])[j].path;
      assert CollectConditions(node, [])[k].path == [i] + sub;
      ChipsAreConditions(children[i], []);
      if sub == [] {
        ChipWithoutPath(children[i], j);
      } else {
        RemovesOneCondition(children[i], j);
      }
      GroupLosesOne(op, children, i, j, k, sub);
  }

  lemma GroupLosesOne(op: GroupOp, children: seq<FilterNode>, i: nat, j: nat, k: nat, sub: Path)
    requires i < |children| && j < |Conditions(children[i])| && k == |ConditionsOf(children[..i])| + j
    requires if sub == [] then children[i].Condition?
             else ConditionsIn(RemoveAtPath(children[i], sub)) == Without(Conditions(children[i]), j)
    ensures ConditionsIn(RemoveAtPath(Group(op, children), [i] + sub)) == Without(ConditionsOf(children), k)
  {
    var next := if sub == [] then Without(children, i) else RemoveInChild(children, i, sub);
    RemovedFromGroup(op, children, i, sub, next);
    NextLosesOne(children, i, j, sub, next);
    ConditionsSplit(children, i);
    WithoutMiddle(ConditionsOf(children[..i]), Conditions(children[i]), ConditionsOf(children[i + 1..]), j);
  }

  // What is left of a group has the conditions of its remaining children, collapsed or not.
  lemma RemovedFromGroup(op: GroupOp, children: seq<FilterNode>, i: nat, sub: Path, next: seq<FilterNode>)
    requires i < |children| && next == if sub == [] then Without(children, i) else RemoveInChild(children, i, sub)
    ensures ConditionsIn(RemoveAtPath(Group(op, children), [i] + sub)) == ConditionsOf(next)
  {
    var path := [i] + sub;
    assert path[0] == i && path[1..] == sub;
    ConditionsAfter(op, next);
  }

  lemma ConditionsSplit(children: seq<FilterNode>, i: nat)
    requires i < |children|
    ensures ConditionsOf(children) ==
            ConditionsOf(children[..i]) + Conditions(children[i]) + ConditionsOf(children[i + 1..])
  {
    ConditionsAround(children, i);
  }

  // The children after the removal, before the group collapses.
  lemma NextLosesOne(children: seq<FilterNode>, i: nat, j: nat, sub: Path, next: seq<FilterNode>)
    requires i < |children| && j < |Conditions(children[i])|
    requires if sub == [] then children[i].Condition?
             else ConditionsIn(RemoveAtPath(children[i], sub)) == Without(Conditions(children[i]), j)
    requires next == if sub == [] then Without(children, i) else RemoveInChild(children, i, sub)
    ensures ConditionsOf(next) ==
            ConditionsOf(children[..i]) + Without(Conditions(children[i]), j) + ConditionsOf(children[i + 1..])
  {
    ConditionsAround(children, i);
    var before, own := ConditionsOf(children[..i]), Conditions(children[i]);
    if sub == [] {
      assert own == [children[i]] && before + [] == before;
    } else if RemoveAtPath(children[i], sub).None? {
      assert before + [] == before;
    }
  }

  lemma WithoutMiddle<T>(a: seq<T>, b: seq<T>, c: seq<T>, j: nat)
    requires j < |b|
    ensures Without(a + b + c, |a| + j) == a + Without(b, j) + c
  {
    assert (a + b + c)[..|a| + j] == a + b[..j];
    assert (a + b + c)[|a| + j + 1..] == b[j + 1..] + c;
  }

  // Collapsing a group of one child keeps its conditions.
  lemma ConditionsAfter(op: GroupOp, next: seq<FilterNode>)
    ensures |next| == 1 ==> Conditions(next[0]) == ConditionsOf(next)
    ensures Conditions(Group(op, next)) == ConditionsOf(next)
    ensures next == [] ==> ConditionsOf(next) == []
  {
    if |next| == 1 {
      assert next == [next[0]];
      OnlyConditions(op, next[0]);
    }
  }

  lemma ChipWithoutPath(node: FilterNode, j: nat)
    requires j < |CollectConditions(node, [])| && CollectConditions(node, [])[j].path == []
    ensures node.Condition?
  {
    if node.Group? {
      var i, j' := ChipInChild(node.children, |node.children|, j);
    }
  }

  // Depth is at most d exactly when every child's is.
  lemma {:induction false} DepthBound(children: seq<FilterNode>, level: nat, d: nat)
    requires children != []
    ensures MaxDepthAll(children, level) <= d <==> forall i :: 0 <= i < |children| ==> MaxDepth(children[i], level) <= d
    decreases |children|
  {
    if |children| > 1 {
      DepthBound(children[1..], level, d);
      assert forall i :: 0 < i < |children| ==> children[i] == children[1..][i - 1];
    }
  }

  lemma DepthOfGroup(op: GroupOp, next: seq<FilterNode>, level: nat, d: nat)
    requires next != [] && forall i :: 0 <= i < |next| ==> MaxDepth(next[i], level + 1) <= d
    ensures MaxDepth(Group(op, next), level) <= d && MaxDepth(next[0], level) <= d
  {
    DepthBound(next, level + 1, d);
    MaxDepthShifts(next[0], level);
    MaxDepthShifts(next[0], level + 1);
  }

  lemma {:induction false} RemovingNeverDeepens(node: FilterNode, path: Path, level: nat)
    ensures RemoveAtPath(node, path).Some? ==> MaxDepth(RemoveAtPath(node, path).value, level) <= MaxDepth(node, level)
    decreases |path|
  {
    if path != [] && node.Group? {
      var head, rest, children := path[0], path[1..], node.children;
      var d := MaxDepth(node, level);
      if children != [] {
        DepthBound(children, level + 1, d);
        if rest == [] {
          var next := Without(children, head);
          if next != [] {
            DepthOfGroup(node.op, next, level, d);
          }
        } else {
          if head < |children| {
            RemovingNeverDeepens(children[head], rest, level + 1);
          }
          var next := RemoveInChild(children, head, rest);
          if next != [] {
            DepthOfGroup(node.op, next, level, d);
          }
        }
      }
    }
  }

  // Removing a chip keeps an accepted filter accepted and takes away exactly
  // that chip's condition.
  lemma RemovingChipIsFaithful(node: FilterNode, k: nat, catalog: Catalog)
    requires k < |CollectConditions(node, [])|
    ensures var path := CollectConditions(node, [])[k].path;
      ConditionsIn(RemoveAtPath(node, path)) == Without(Conditions(node), k) &&
      DepthOf(RemoveAtPath(node, path)) <= MaxDepth(node, 0) &&
      (Valid(node, catalog) ==> ValidFilter(RemoveAtPath(node, path), catalog))
  {
    var path := CollectConditions(node, [])[k].path;
    RemovesOneCondition(node, k);
    RemovingNeverDeepens(node, path, 0);
    ChipsAreConditions(node, []);
    var kept := Without(Conditions(node), k);
    assert forall c :: c in kept ==> c in Conditions(node);
  }

  // --------------------------------------------------------------------- adding

  lemma AddedConditions(current: Option<FilterNode>, c: FilterNode)
    requires c.Condition?
    ensures Conditions(AddCondition(current, c)) == ConditionsIn(current) + [c]
  {
    assert [c][1..] == [] && ConditionsOf([c]) == [c] + [];
    match current
    case None =>
    case Some(f) =>
      if f.Group? && f.op == AllOf {
        ConditionsOfConcat(f.children, [c]);
      } else {
        assert [f, c][1..] == [c];
      }
  }

  lemma {:induction false} MeaningsConcat(a: seq<FilterNode>, c: FilterNode, k: nat, ticket: Row, world: World,
                                          attributes: Attributes, dates: Dates)
    requires k <= |a|
    ensures Meanings(a + [c], k, ticket, world, attributes, dates) == Meanings(a, k, ticket, world, attributes, dates)
  {
    if k > 0 {
      MeaningsConcat(a, c, k - 1, ticket, world, attributes, dates);
    }
  }

  // The new filter holds exactly when the old one and the new condition do.
  lemma AddedMeaning(current: Option<FilterNode>, c: FilterNode, ticket: Row, world: World, attributes: Attributes,
                     dates: Dates)
    requires c.Condition?
    ensures Meaning(AddCondition(current, c), ticket, world, attributes, dates) ==
            And3(FilterMeans(current, ticket, world, attributes, dates), Meaning(c, ticket, world, attributes, dates))
  {
    match current
    case None =>
    case Some(f) =>
      var mc := Meaning(c, ticket, world, attributes, dates);
      if f.Group? && f.op == AllOf {
        var n := |f.children|;
        MeaningsConcat(f.children, c, n, ticket, world, attributes, dates);
        AllTrueLast(Meanings(f.children, n, ticket, world, attributes, dates), mc);
      } else {
        var pair, mf := [f, c], Meaning(f, ticket, world, attributes, dates);
        assert Meanings(pair, 1, ticket, world, attributes, dates) == [mf];
        assert Meanings(pair, 2, ticket, world, attributes, dates) == [mf] + [mc];
        AllTrueLast([mf], mc);
      }
  }

  predicate StaysShallow(current: Option<FilterNode>) {
    match current
    case None => true
    case Some(f) => (f.Group? && f.op == AllOf) || MaxDepth(f, 0) < MAX_DEPTH
  }

  lemma AddedDepth(current: Option<FilterNode>, c: FilterNode)
    requires c.Condition? && DepthOf(current) <= MAX_DEPTH
    ensures MaxDepth(AddCondition(current, c), 0) <= MAX_DEPTH <==> StaysShallow(current)
  {
    match current
    case None =>
    case Some(f) =>
      if f.Group? && f.op == AllOf {
        var all := f.children + [c];
        if f.children != [] {
          DepthBound(f.children, 1, MAX_DEPTH);
        }
        forall i | 0 <= i < |all|
          ensures MaxDepth(all[i], 1) <= MAX_DEPTH
        {
        }
        DepthBound(all, 1, MAX_DEPTH);
      } else {
        DepthBound([f, c], 1, MAX_DEPTH);
        MaxDepthShifts(f, 1);
        assert [f, c][0] == f && [f, c][1] == c;
      }
  }

  // Adding a condition keeps a filter acceptable exactly when there is room for
  // one more condition and the merge does not nest an already deepest filter.
  lemma AddedValidity(current: Option<FilterNode>, c: FilterNode, catalog: Catalog)
    requires c.Condition? && WellFormed(c, catalog) && ValidFilter(current, catalog)
    ensures Valid(AddCondition(current, c), catalog) <==>
            |ConditionsIn(current)| < MAX_NODES && StaysShallow(current)
  {
    AddedConditions(current, c);
    AddedDepth(current, c);
  }

  // ----------------------------------------------------------------- add, remove

  lemma AddedChip(current: Option<FilterNode>, c: FilterNode)
    requires c.Condition?
    ensures var chips := CollectConditions(AddCondition(current, c), []);
      |chips| > 0 && chips[|chips| - 1] ==
        match current
        case None => Chip(c, [])
        case Some(f) => Chip(c, [if f.Group? && f.op == AllOf then |f.children| else 1])
  {
    match current
    case None =>
    case Some(f) =>
      var next := AddCondition(current, c).children;
      var here: Path := [|next| - 1];
      assert [] + here == here;
      assert CollectConditions(c, [] + here) == [Chip(c, here)];
      assert CollectChildren(next, |next|, []) == CollectChildren(next, |next| - 1, []) + [Chip(c, [|next| - 1])];
  }

  // Removing the chip just added gives back a filter that means the old one.
  lemma AddThenRemove(current: Option<FilterNode>, c: FilterNode, ticket: Row, world: World, attributes: Attributes,
                      dates: Dates)
    requires c.Condition?
    ensures var next := AddCondition(current, c);
      var chips := CollectConditions(next, []);
      |chips| > 0 &&
      FilterMeans(RemoveAtPath(next, chips[|chips| - 1].path), ticket, world, attributes, dates) ==
      FilterMeans(current, ticket, world, attributes, dates)
  {
    AddedChip(current, c);
    match current
    case None =>
    case Some(f) =>
      var next := AddCondition(current, c);
      var kept := if f.Group? && f.op == AllOf then f.children else [f];
      LastRemoved(next.children, kept, c, ticket, world, attributes, dates);
      if !(f.Group? && f.op == AllOf) {
        SingleMeans(f, ticket, world, attributes, dates);
      }
  }

  // Taking the last child off an all-of group leaves what the others mean together.
  lemma LastRemoved(children: seq<FilterNode>, kept: seq<FilterNode>, c: FilterNode, ticket: Row, world: World,
                    attributes: Attributes, dates: Dates)
    requires children == kept + [c]
    ensures FilterMeans(RemoveAtPath(Group(AllOf, children), [|kept|]), ticket, world, attributes, dates) ==
            Meaning(Group(AllOf, kept), ticket, world, attributes, dates)
  {
    assert Without(children, |kept|) == kept;
    if |kept| == 1 {
      SingleMeans(kept[0], ticket, world, attributes, dates);
      assert kept == [kept[0]];
    }
  }

  lemma SingleMeans(f: FilterNode, ticket: Row, world: World, attributes: Attributes, dates: Dates)
    ensures Meaning(Group(AllOf, [f]), ticket, world, attributes, dates) == Meaning(f, ticket, world, attributes, dates)
  {
    var m := Meaning(f, ticket, world, attributes, dates);
    assert Meanings([f], 1, ticket, world, attributes, dates) == [] + [m];
    AllTrueLast([], m);
  }
}
