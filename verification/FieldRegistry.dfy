/** The allow-listed fields: columns, operators and value schemas. */
module FieldRegistry {
  import opened Basics
  import opened Json
  import opened FilterAst
  import opened Text

  datatype SqlType = TextType | TextEnumType | UuidType | TimestampType | BooleanType

  datatype Schema =
    | UuidSchema
    | EnumSchema(values: seq<string>)
    | TextSchema(min: nat, max: nat)
    | DateSchema
    | BoolSchema
    | ArraySchema(element: Schema, min: nat)
    | PairSchema(element: Schema)

  datatype ExistsJoin = ExistsJoin(table: string, joinColumn: string, valueColumn: string)

  datatype FieldEntry = FieldEntry(
    column: string,
    sqlType: SqlType,
    allowed: seq<Operator>,
    scalarSchema: Schema,
    arraySchema: Option<Schema>,
    rangeSchema: Option<Schema>,
    join: Option<ExistsJoin>)

  // Date text and relative tokens resolve to instants; the calendar is a parameter.
  datatype Dates = Dates(parse: string -> Option<int>, relative: string -> int)

  const RELATIVE_DATE_TOKENS := [
    "today", "yesterday", "this_week", "this_month", "this_year",
    "last_7_days", "last_30_days", "last_90_days"]

  predicate IsRelativeDateToken(s: string) {
    s in RELATIVE_DATE_TOKENS
  }

  const EQUALITY: seq<Operator> := [OpEq, OpNeq, OpIn, OpNotIn, OpIsNull, OpIsNotNull]
  const ORDERED: seq<Operator> := [OpEq, OpNeq, OpGt, OpGte, OpLt, OpLte, OpBetween, OpIsNull, OpIsNotNull]
  const STATUS_VALUES := ["open", "in_progress", "pending", "resolved", "closed"]
  const PRIORITY_VALUES := ["P1", "P2", "P3", "P4"]
  const SLA_STATE_VALUES := ["ok", "warning", "breached", "paused"]

  // A double-quoted identifier; registry names never need escaping.
  function Quoted(name: string): string {
    "\"" + name + "\""
  }

  function ColumnText(table: string, column: string): string {
    Quoted(table) + "." + Quoted(column)
  }

  function EnumEntry(column: string, values: seq<string>): FieldEntry {
    FieldEntry(column, TextEnumType, EQUALITY, EnumSchema(values),
               Some(ArraySchema(EnumSchema(values), 1)), None, None)
  }

  function UuidEntry(column: string, allowed: seq<Operator>, join: Option<ExistsJoin>): FieldEntry {
    FieldEntry(column, UuidType, allowed, UuidSchema, Some(ArraySchema(UuidSchema, 1)), None, join)
  }

  function TimestampEntry(column: string): FieldEntry {
    FieldEntry(column, TimestampType, ORDERED, DateSchema, None, Some(PairSchema(DateSchema)), None)
  }

  // FIELD_REGISTRY[field]; None for a name that is not a key of the table.
  function Lookup(field: FieldName): Option<FieldEntry> {
    match field
    case Status => Some(EnumEntry(ColumnText("tickets", "status"), STATUS_VALUES))
    case Priority => Some(EnumEntry(ColumnText("tickets", "priority"), PRIORITY_VALUES))
    case CategoryId => Some(UuidEntry(ColumnText("tickets", "category_id"), EQUALITY, None))
    case CategoryPath =>
      Some(FieldEntry(ColumnText("tickets", "category_path"), TextType,
                      [OpEq, OpNeq, OpContains, OpIsNull, OpIsNotNull], TextSchema(1, 512), None, None, None))
    case TagId =>
      Some(UuidEntry(ColumnText("ticket_tags", "tag_id"), [OpEq, OpIn, OpNotIn],
                     Some(ExistsJoin("ticket_tags", "ticket_id", "tag_id"))))
    case AssignmentGroupId => Some(UuidEntry(ColumnText("tickets", "assignment_group_id"), EQUALITY, None))
    case AssigneeUserId => Some(UuidEntry(ColumnText("tickets", "assignee_id"), EQUALITY, None))
    case OrganizationId =>
      Some(UuidEntry(ColumnText("tickets", "organization_id"), [OpEq, OpNeq, OpIn, OpNotIn], None))
    case SlaState => Some(EnumEntry(ColumnText("tickets", "sla_state"), SLA_STATE_VALUES))
    case CreatedAt => Some(TimestampEntry(ColumnText("tickets", "created_at")))
    case UpdatedAt => Some(TimestampEntry(ColumnText("tickets", "updated_at")))
    case ResolvedAt => Some(TimestampEntry(ColumnText("tickets", "resolved_at")))
    case HasJiraLink =>
      Some(FieldEntry(ColumnText("tickets", "has_jira_link"), BooleanType,
                      [OpEq, OpIsNull, OpIsNotNull], BoolSchema, None, None, None))
    case AffectedArea =>
      Some(UuidEntry(ColumnText("ticket_affected_areas", "area_id"), [OpEq, OpIn, OpNotIn],
                     Some(ExistsJoin("ticket_affected_areas", "ticket_id", "area_id"))))
    case OtherField(_) => None
  }

  // The table a filter is checked and compiled against, and the calendar.
  datatype Catalog = Catalog(lookup: FieldName -> Option<FieldEntry>, dates: Dates)

  function StandardCatalog(dates: Dates): Catalog {
    Catalog(field => Lookup(field), dates)
  }

  predicate IsHex(c: char) {
    '0' <= c <= '9' || 'a' <= c <= 'f' || 'A' <= c <= 'F'
  }

  // 8-4-4-4-12 hexadecimal digits.
  predicate IsUuid(s: string) {
    |s| == 36 &&
    forall i :: 0 <= i < 36 ==>
      if i == 8 || i == 13 || i == 18 || i == 23 then s[i] == '-' else IsHex(s[i])
  }

  predicate IsDate(s: string, dates: Dates) {
    IsRelativeDateToken(s) || dates.parse(s).Some?
  }

  // What a value schema accepts.
  predicate Accepts(schema: Schema, v: Json, dates: Dates)
    decreases schema
  {
    match schema
    case UuidSchema => v.JStr? && IsUuid(v.s)
    case EnumSchema(values) => v.JStr? && v.s in values
    case TextSchema(min, max) => v.JStr? && min <= |v.s| <= max
    case DateSchema => v.JStr? && IsDate(v.s, dates)
    case BoolSchema => v.JBool?
    case ArraySchema(element, min) =>
      v.JArr? && |v.items| >= min && forall i :: 0 <= i < |v.items| ==> Accepts(element, v.items[i], dates)
    case PairSchema(element) =>
      v.JArr? && |v.items| == 2 && forall i :: 0 <= i < |v.items| ==> Accepts(element, v.items[i], dates)
  }

  // schema.safeParse(v): the paths of the issues it reports, in order.
  function Issues(schema: Schema, v: Json, dates: Dates): (paths: seq<string>)
    ensures paths == [] <==> Accepts(schema, v, dates)
  {
    match schema
    case ArraySchema(element, min) =>
      if !v.JArr? then [""]
      else (if |v.items| < min then [""] else []) + ElementIssues(element, v.items, 0, dates)
    case PairSchema(element) =>
      if !v.JArr? then [""]
      else (if |v.items| != 2 then [""] else []) + ElementIssues(element, v.items, 0, dates)
    case UuidSchema => if Accepts(schema, v, dates) then [] else [""]
    case EnumSchema(_) => if Accepts(schema, v, dates) then [] else [""]
    case TextSchema(_, _) => if Accepts(schema, v, dates) then [] else [""]
    case DateSchema => if Accepts(schema, v, dates) then [] else [""]
    case BoolSchema => if Accepts(schema, v, dates) then [] else [""]
  }

  // One issue at path "i" for each element the element schema rejects; the
  // element schemas of the registry are scalar.
  function ElementIssues(element: Schema, items: seq<Json>, i: nat, dates: Dates): (paths: seq<string>)
    requires i <= |items|
    ensures paths == [] <==> forall k :: i <= k < |items| ==> Accepts(element, items[k], dates)
    decreases |items| - i
  {
    if i == |items| then []
    else (if Accepts(element, items[i], dates) then [] else [NatText(i)]) +
         ElementIssues(element, items, i + 1, dates)
  }
}
