/** What a filter means after one of its chips was removed, on every ticket. */
module FilterRemoval {
  import opened Basics
  import opened FilterAst
  import opened FieldRegistry
  import opened SqlSemantics
  import opened FilterMeaning
  import opened FilterEdit

  // What a group means, given what its children mean.
  function Combined(op: GroupOp, ts: seq<Tri>): Tri {
    if op == AllOf then AllTrue(ts) else AnyTrue(ts)
  }

  // The value that does not matter in a group.
  function Neutral(op: GroupOp): Tri {
    if op == AllOf then Yes else No
  }

  // What a filter means when the node at a path has the neutral value of its group. None
  // when nothing of the filter is left: then it has the neutral value of its own group.
  ghost function MeaningWithout(node: FilterNode, path: Path, ticket: Row, world: World, attributes: Attributes,
                                dates: Dates): Option<Tri>
    requires NodeAt(node, path).Some?
    decreases |path|
  {
    if path == [] then None
    else
      var each := Meanings(node.children, |node.children|, ticket, world, attributes, dates);
      match MeaningWithout(node.children[path[0]], path[1..], ticket, world, attributes, dates)
      case Some(t) => Some(Combined(node.op, each[path[0] := t]))
      case None =>
        if |node.children| == 1 then None else Some(Combined(node.op, each[path[0] := Neutral(node.op)]))
  }

  lemma {:induction false} MeaningsAt(children: seq<FilterNode>, k: nat, i: nat, ticket: Row, world: World,
                                      attributes: Attributes, dates: Dates)
    requires i < k <= |children|
    ensures Meanings(children, k, ticket, world, attributes, dates)[i] ==
            Meaning(children[i], ticket, world, attributes, dates)
    decreases k
  {
    if i < k - 1 {
      MeaningsAt(children, k - 1, i, ticket, world, attributes, dates);
    }
  }

  lemma MeaningsAre(children: seq<FilterNode>, ts: seq<Tri>, ticket: Row, world: World, attributes: Attributes,
                    dates: Dates)
    requires |ts| == |children|
    requires forall i :: 0 <= i < |children| ==> ts[i] == Meaning(children[i], ticket, world, attributes, dates)
    ensures Meanings(children, |children|, ticket, world, attributes, dates) == ts
  {
    forall i | 0 <= i < |children|
      ensures Meanings(children, |children|, ticket, world, attributes, dates)[i] == ts[i]
    {
      MeaningsAt(children, |children|, i, ticket, world, attributes, dates);
    }
  }

  lemma WithoutAt<T>(s: seq<T>, i: nat, j: nat)
    requires i < |s| && j < |s| - 1
    ensures |Without(s, i)| == |s| - 1 && Without(s, i)[j] == s[if j < i then j else j + 1]
  {
  }

  lemma MeaningsWithout(children: seq<FilterNode>, i: nat, ticket: Row, world: World, attributes: Attributes,
                        dates: Dates)
    requires i < |children|
    ensures Meanings(Without(children, i), |children| - 1, ticket, world, attributes, dates) ==
            Without(Meanings(children, |children|, ticket, world, attributes, dates), i)
  {
    hide FilterMeaning.Meaning, FilterMeaning.Meanings, Without;
    var each := Meanings(children, |children|, ticket, world, attributes, dates);
    var left := Without(children, i);
    assert |left| == |children| - 1 && |Without(each, i)| == |left| by {
      WithoutLength(children, i);
      WithoutLength(each, i);
    }
    forall j | 0 <= j < |left|
      ensures Without(each, i)[j] == Meaning(left[j], ticket, world, attributes, dates)
    {
      var k := if j < i then j else j + 1;
      WithoutAt(children, i, j);
      WithoutAt(each, i, j);
      MeaningsAt(children, |children|, k, ticket, world, attributes, dates);
    }
    MeaningsAre(left, Without(each, i), ticket, world, attributes, dates);
  }

  lemma WithoutLength<T>(s: seq<T>, i: nat)
    requires i < |s|
    ensures |Without(s, i)| == |s| - 1
  {
  }

  lemma MeaningsUpdated(children: seq<FilterNode>, i: nat, c: FilterNode, ticket: Row, world: World,
                        attributes: Attributes, dates: Dates)
    requires i < |children|
    ensures Meanings(children[i := c], |children|, ticket, world, attributes, dates) ==
            Meanings(children, |children|, ticket, world, attributes, dates)
              [i := Meaning(c, ticket, world, attributes, dates)]
  {
    hide FilterMeaning.Meaning, FilterMeaning.Meanings;
    var each := Meanings(children, |children|, ticket, world, attributes, dates);
    forall j | 0 <= j < |children|
      ensures each[j] == Meaning(children[j], ticket, world, attributes, dates)
    {
      MeaningsAt(children, |children|, j, ticket, world, attributes, dates);
    }
    MeaningsAre(children[i := c], each[i := Meaning(c, ticket, world, attributes, dates)], ticket, world, attributes,
                dates);
  }

  // Dropping a member is giving it the neutral value.
  lemma DroppedIsNeutral(op: GroupOp, ts: seq<Tri>, i: nat)
    requires i < |ts|
    ensures Combined(op, Without(ts, i)) == Combined(op, ts[i := Neutral(op)])
  {
    var dropped, neutral := Without(ts, i), ts[i := Neutral(op)];
    forall t: Tri | t != Neutral(op)
      ensures t in dropped <==> t in neutral
    {
      if t in dropped {
        var j :| 0 <= j < |dropped| && dropped[j] == t;
        assert neutral[if j < i then j else j + 1] == t;
      }
      if t in neutral {
        var j :| 0 <= j < |neutral| && neutral[j] == t;
        assert dropped[if j < i then j else j - 1] == t;
      }
    }
  }

  lemma SingleCombined(op: GroupOp, child: FilterNode, ticket: Row, world: World, attributes: Attributes, dates: Dates)
    ensures Meaning(Group(op, [child]), ticket, world, attributes, dates) ==
            Meaning(child, ticket, world, attributes, dates)
  {
    MeaningsAre([child], [Meaning(child, ticket, world, attributes, dates)], ticket, world, attributes, dates);
  }

  // What is left of a group means the group of what is left, collapsed or not.
  lemma LeftMeans(op: GroupOp, next: seq<FilterNode>, ticket: Row, world: World, attributes: Attributes, dates: Dates)
    requires next != []
    ensures Meaning(Group(op, next), ticket, world, attributes, dates) ==
            Combined(op, Meanings(next, |next|, ticket, world, attributes, dates))
    ensures |next| == 1 ==> Meaning(next[0], ticket, world, attributes, dates) ==
                            Meaning(Group(op, next), ticket, world, attributes, dates)
  {
    if |next| == 1 {
      assert next == [next[0]];
      SingleCombined(op, next[0], ticket, world, attributes, dates);
    }
  }

  // Removing any node.
  lemma {:induction false} RemovedMeans(node: FilterNode, path: Path, ticket: Row, world: World,
                                        attributes: Attributes, dates: Dates)
    requires NodeAt(node, path).Some?
    ensures var r, t := RemoveAtPath(node, path), MeaningWithout(node, path, ticket, world, attributes, dates);
      (r.None? <==> t.None?) && (r.Some? ==> Meaning(r.value, ticket, world, attributes, dates) == t.value)
    decreases |path|
  {
    if path != [] {
      var i, rest, children := path[0], path[1..], node.children;
      RemovedMeans(children[i], rest, ticket, world, attributes, dates);
      match RemoveAtPath(children[i], rest)
      case None =>
        var next := Without(children, i);
        if next != [] {
          LeftMeans(node.op, next, ticket, world, attributes, dates);
          MeaningsWithout(children, i, ticket, world, attributes, dates);
          DroppedIsNeutral(node.op, Meanings(children, |children|, ticket, world, attributes, dates), i);
        }
      case Some(child) =>
        var next := children[i := child];
        LeftMeans(node.op, next, ticket, world, attributes, dates);
        MeaningsUpdated(children, i, child, ticket, world, attributes, dates);
    }
  }

  lemma {:induction false} ChipPathLeads(node: FilterNode, k: nat)
    requires k < |CollectConditions(node, [])|
    ensures NodeAt(node, CollectConditions(node, [])[k].path) == Some(CollectConditions(node, [])[k].condition)
    decreases node
  {
    match node
    case Condition(_, _, _) =>
    case Group(_, children) =>
      var i, j := ChipInChild(children, |children|, k);
      ChipPathLeads(children[i], j);
      var sub := CollectConditions(children[i], [])[j].path;
      assert ([i] + sub)[1..] == sub;
  }

  // On every ticket, removing the k-th chip leaves what the filter means when that
  // condition has the neutral value of its group, and a group it leaves empty the neutral
  // value of its parent; when nothing is left, every ticket passes.
  lemma RemovedChipMeans(node: FilterNode, k: nat, ticket: Row, world: World, attributes: Attributes, dates: Dates)
    requires k < |CollectConditions(node, [])|
    ensures var chip := CollectConditions(node, [])[k];
      NodeAt(node, chip.path) == Some(chip.condition) &&
      FilterMeans(RemoveAtPath(node, chip.path), ticket, world, attributes, dates) ==
      match MeaningWithout(node, chip.path, ticket, world, attributes, dates)
      case Some(t) => t
      case None => Yes
  {
    ChipPathLeads(node, k);
    RemovedMeans(node, CollectConditions(node, [])[k].path, ticket, world, attributes, dates);
  }
}
