/**
 * What a filter means on a ticket, without SQL: three-valued logic over the
 * ticket's attributes and its related rows.
 */
module FilterMeaning {
  import opened Basics
  import opened Json
  import opened FilterAst
  import opened FieldRegistry
  import opened SqlSemantics
  import opened CompileTokens
  import opened SqlSyntax
  import LikePattern

  // Where the values of a field are found: in a column of the ticket, or in a column of
  // the rows of another table that name the ticket in theirs.
  datatype Place = OnTicket(column: string) | InRelated(table: string, ticketColumn: string, valueColumn: string)

  // A field as its users know it: where its values are found, and whether they are instants.
  datatype Attribute = Attribute(place: Place, isTime: bool)

  type Attributes = FieldName -> Option<Attribute>

  // The value a filter constant stands for.
  function Denotes(v: Json, isTime: bool, dates: Dates): SqlValue {
    if !isTime then JsonValue(v)
    else if !v.JStr? then SqlNull
    else if IsRelativeDateToken(v.s) then SqlTime(dates.relative(v.s))
    else if dates.parse(v.s).Some? then SqlTime(dates.parse(v.s).value)
    else SqlNull
  }

  // True of some element, else unknown for some element, else false.
  function AnyTrue(ts: seq<Tri>): Tri {
    if Yes in ts then Yes else if Unknown in ts then Unknown else No
  }

  // False of some element, else unknown for some element, else true.
  function AllTrue(ts: seq<Tri>): Tri {
    if No in ts then No else if Unknown in ts then Unknown else Yes
  }

  // How two values compare: an absent one is unknown, and only instants are ordered.
  function Compared(op: Operator, a: SqlValue, b: SqlValue): Tri {
    if a == SqlNull || b == SqlNull then Unknown
    else
      Tri3(match op
           case OpEq => a == b
           case OpNeq => a != b
           case OpGt => a.SqlTime? && b.SqlTime? && a.ms > b.ms
           case OpGte => a == b || (a.SqlTime? && b.SqlTime? && a.ms > b.ms)
           case OpLt => a.SqlTime? && b.SqlTime? && a.ms < b.ms
           case OpLte => a == b || (a.SqlTime? && b.SqlTime? && a.ms < b.ms)
           case _ => false)
  }

  function EqualsEach(x: SqlValue, vs: seq<Json>, isTime: bool, dates: Dates): seq<Tri> {
    seq(|vs|, i requires 0 <= i < |vs| => Compared(OpEq, x, Denotes(vs[i], isTime, dates)))
  }

  // A row that names the ticket.
  predicate IsRelated(row: Row, place: Place, ticket: Row)
    requires place.InRelated?
  {
    Compared(OpEq, Cell(row, place.ticketColumn), Cell(ticket, "id")) == Yes
  }

  // A related row of the ticket whose value equals one of vs.
  predicate IsRelatedIn(row: Row, place: Place, ticket: Row, vs: seq<Json>, isTime: bool, dates: Dates)
    requires place.InRelated?
  {
    IsRelated(row, place, ticket) && Yes in EqualsEach(Cell(row, place.valueColumn), vs, isTime, dates)
  }

  predicate SomeRelatedIn(place: Place, ticket: Row, world: World, vs: seq<Json>, isTime: bool, dates: Dates)
    requires place.InRelated?
  {
    exists i :: 0 <= i < |TableRows(world, place.table)| &&
      IsRelatedIn(TableRows(world, place.table)[i], place, ticket, vs, isTime, dates)
  }

  predicate SomeRelated(place: Place, ticket: Row, world: World)
    requires place.InRelated?
  {
    exists i :: 0 <= i < |TableRows(world, place.table)| && IsRelated(TableRows(world, place.table)[i], place, ticket)
  }

  function Items(v: Json): seq<Json> {
    if v.JArr? then v.items else []
  }

  // text contains value, after case folding.
  ghost function Contains3(world: World, x: SqlValue, value: Json): Tri {
    if x.SqlNull? || !value.JStr? then Unknown
    else
      Tri3(x.SqlText? &&
           LikePattern.Occurs(LikePattern.Fold(world.fold, value.s), LikePattern.Fold(world.fold, x.s)))
  }

  ghost function TicketMeaning(op: Operator, x: SqlValue, v: Json, isTime: bool, world: World, dates: Dates): Tri {
    match op
    case OpIsNull => Tri3(x.SqlNull?)
    case OpIsNotNull => Tri3(!x.SqlNull?)
    case OpIn => AnyTrue(EqualsEach(x, Items(v), isTime, dates))
    case OpNotIn => Not3(AnyTrue(EqualsEach(x, Items(v), isTime, dates)))
    case OpBetween =>
      if |Items(v)| != 2 then Unknown
      else AllTrue([Compared(OpGte, x, Denotes(Items(v)[0], isTime, dates)),
                    Compared(OpLte, x, Denotes(Items(v)[1], isTime, dates))])
    case OpContains => Contains3(world, x, v)
    case OpEq => Compared(OpEq, x, Denotes(v, isTime, dates))
    case OpNeq => Compared(OpNeq, x, Denotes(v, isTime, dates))
    case OpGt => Compared(OpGt, x, Denotes(v, isTime, dates))
    case OpGte => Compared(OpGte, x, Denotes(v, isTime, dates))
    case OpLt => Compared(OpLt, x, Denotes(v, isTime, dates))
    case OpLte => Compared(OpLte, x, Denotes(v, isTime, dates))
    case OtherOperator(_) => Unknown
  }

  // A field kept in a related table is never unknown: a row is there or it is not.
  function RelatedMeaning(op: Operator, place: Place, v: Json, isTime: bool, ticket: Row, world: World,
                          dates: Dates): Tri
    requires place.InRelated?
  {
    match op
    case OpIsNull => Tri3(!SomeRelated(place, ticket, world))
    case OpIsNotNull => Tri3(SomeRelated(place, ticket, world))
    case OpIn => Tri3(SomeRelatedIn(place, ticket, world, Items(v), isTime, dates))
    case OpNotIn => Tri3(!SomeRelatedIn(place, ticket, world, Items(v), isTime, dates))
    case OpEq => Tri3(SomeRelatedIn(place, ticket, world, [v], isTime, dates))
    case _ => Unknown
  }

  ghost function ConditionMeaning(c: FilterNode, ticket: Row, world: World, attributes: Attributes, dates: Dates): Tri
    requires c.Condition?
  {
    match attributes(c.field)
    case None => Unknown
    case Some(attribute) =>
      match attribute.place
      case OnTicket(column) =>
        TicketMeaning(c.operator, Cell(ticket, column), c.value, attribute.isTime, world, dates)
      case InRelated(_, _, _) =>
        RelatedMeaning(c.operator, attribute.place, c.value, attribute.isTime, ticket, world, dates)
  }

  ghost function Meaning(node: FilterNode, ticket: Row, world: World, attributes: Attributes, dates: Dates): Tri
    decreases node
  {
    match node
    case Condition(_, _, _) => ConditionMeaning(node, ticket, world, attributes, dates)
    case Group(op, children) =>
      var each := Meanings(children, |children|, ticket, world, attributes, dates);
      if op == AllOf then AllTrue(each) else AnyTrue(each)
  }

  // The meanings of the first k children.
  ghost function Meanings(children: seq<FilterNode>, k: nat, ticket: Row, world: World, attributes: Attributes,
                          dates: Dates): (ts: seq<Tri>)
    requires k <= |children|
    ensures |ts| == k
    decreases children, k
  {
    if k == 0 then []
    else
      Meanings(children, k - 1, ticket, world, attributes, dates) +
      [Meaning(children[k - 1], ticket, world, attributes, dates)]
  }

  lemma AllTrueLast(ts: seq<Tri>, t: Tri)
    ensures AllTrue(ts + [t]) == And3(AllTrue(ts), t)
  {
    assert No in ts + [t] <==> No in ts || t == No;
    assert Unknown in ts + [t] <==> Unknown in ts || t == Unknown;
  }

  lemma AnyTrueLast(ts: seq<Tri>, t: Tri)
    ensures AnyTrue(ts + [t]) == Or3(AnyTrue(ts), t)
  {
    assert Yes in ts + [t] <==> Yes in ts || t == Yes;
    assert Unknown in ts + [t] <==> Unknown in ts || t == Unknown;
  }

  lemma AnyTrueFirst(t: Tri, ts: seq<Tri>)
    ensures AnyTrue([t] + ts) == Or3(t, AnyTrue(ts))
  {
    assert Yes in [t] + ts <==> Yes in ts || t == Yes;
    assert Unknown in [t] + ts <==> Unknown in ts || t == Unknown;
  }
}
