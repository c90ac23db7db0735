/** The compiled text lexes to the tokens of CompileTokens, piece by piece from the right. */
module CompileText {
  import opened Basics
  import opened Text
  import opened Json
  import opened FilterAst
  import opened FieldRegistry
  import opened FilterCompile
  import opened SqlSyntax
  import opened CompileTokens

  // ------------------------------------------------------------- regrouping

  lemma Regroup3(a: string, b: string, c: string, rest: string)
    ensures (a + b + c) + rest == a + (b + (c + rest))
  {
  }

  lemma Regroup4(a: string, b: string, c: string, d: string, rest: string)
    ensures (a + b + c + d) + rest == a + (b + (c + (d + rest)))
  {
    Regroup3(a, b, c, d + rest);
  }

  lemma Regroup5(a: string, b: string, c: string, d: string, e: string, rest: string)
    ensures (a + b + c + d + e) + rest == a + (b + (c + (d + (e + rest))))
  {
    Regroup3(a, b, c, d + (e + rest));
    Regroup3(a + b + c, d, e, rest);
  }

  lemma Regroup8(a: string, b: string, c: string, d: string, e: string, f: string, g: string, h: string, rest: string)
    ensures (a + b + c + d + e + f + g + h) + rest == a + (b + (c + (d + (e + f + g + (h + rest)))))
  {
    Regroup3(a, b, c, d + (e + f + g + (h + rest)));
    Regroup5(a + b + c, d, e, f, g + h, rest);
    assert a + b + c + d + e + f + g + h == a + b + c + d + e + f + (g + h);
    assert e + (f + (g + h + rest)) == e + f + g + (h + rest);
  }

  // ----------------------------------------------------------------- names

  lemma ColumnPiece(reader: Reader, entry: FieldEntry, name: ColumnName, rest: string, ts: List<Token>)
    requires ObeysSpelling(reader)
    requires NamesColumn(entry, name) && reader(rest, ts) && Clean(rest)
    ensures reader(entry.column + rest, ColumnTokens(name, ts))
  {
    QualifiedPiece(reader, name, rest, ts);
  }

  lemma QualifiedPiece(reader: Reader, name: ColumnName, rest: string, ts: List<Token>)
    requires ObeysSpelling(reader)
    requires PlainName(name.table) && PlainName(name.column) && reader(rest, ts) && Clean(rest)
    ensures reader(Quoted(name.table) + "." + Quoted(name.column) + rest, ColumnTokens(name, ts))
  {
    ReadsToken(reader, Name(name.column), rest, ts);
    var tail := Quoted(name.column) + rest;
    ReadsToken(reader, Dot, tail, Cons(Name(name.column), ts));
    ReadsToken(reader, Name(name.table), "." + tail, Cons(Dot, Cons(Name(name.column), ts)));
    assert Quoted(name.table) + "." + Quoted(name.column) + rest == Quoted(name.table) + ("." + tail);
  }

  // -------------------------------------------------------- fixed fragments

  // A keyword or comparison followed by a space, and the same with a space in front.
  lemma Spaced(reader: Reader, t: Token, rest: string, ts: List<Token>)
    requires ObeysSpelling(reader)
    requires Spellable(t) && reader(rest, ts)
    ensures reader(TokenText(t) + " " + rest, Cons(t, ts)) && reader(" " + TokenText(t) + " " + rest, Cons(t, ts))
  {
    ReadsGap(reader, rest, ts);
    ReadsToken(reader, t, " " + rest, ts);
    assert TokenText(t) + " " + rest == TokenText(t) + (" " + rest);
    ReadsGap(reader, TokenText(t) + " " + rest, Cons(t, ts));
    assert " " + TokenText(t) + " " + rest == " " + (TokenText(t) + " " + rest);
  }

  lemma IsNullPiece(reader: Reader, rest: string, ts: List<Token>)
    requires ObeysSpelling(reader)
    requires reader(rest, ts) && Clean(rest)
    ensures reader(" IS NULL" + rest, Cons(KwIs, Cons(KwNull, ts)))
    ensures reader(" IS NOT NULL" + rest, Cons(KwIs, Cons(KwNot, Cons(KwNull, ts))))
  {
    ReadsToken(reader, KwNull, rest, ts);
    var null_ := TokenText(KwNull) + rest;
    Spaced(reader, KwIs, null_, Cons(KwNull, ts));
    assert " IS NULL" + rest == " " + TokenText(KwIs) + " " + null_;
    Spaced(reader, KwNot, null_, Cons(KwNull, ts));
    var notNull := TokenText(KwNot) + " " + null_;
    Spaced(reader, KwIs, notNull, Cons(KwNot, Cons(KwNull, ts)));
    assert " IS NOT NULL" + rest == " " + TokenText(KwIs) + " " + notNull;
  }

  lemma InPiece(reader: Reader, rest: string, ts: List<Token>)
    requires ObeysSpelling(reader)
    requires reader(rest, ts)
    ensures reader(" IN (" + rest, Cons(KwIn, Cons(LParen, ts)))
    ensures reader(" NOT IN (" + rest, Cons(KwNot, Cons(KwIn, Cons(LParen, ts))))
  {
    ReadsToken(reader, LParen, rest, ts);
    var open := "(" + rest;
    Spaced(reader, KwIn, open, Cons(LParen, ts));
    assert " IN (" + rest == " " + TokenText(KwIn) + " " + open;
    var in_ := TokenText(KwIn) + " " + open;
    Spaced(reader, KwNot, in_, Cons(KwIn, Cons(LParen, ts)));
    assert " NOT IN (" + rest == " " + TokenText(KwNot) + " " + in_;
  }

  lemma SelectPiece(reader: Reader, rest: string, ts: List<Token>)
    requires ObeysSpelling(reader)
    requires reader(rest, ts)
    ensures reader("EXISTS (SELECT 1 FROM " + rest,
                   Cons(KwExists, Cons(LParen, Cons(KwSelect, Cons(Number(1), Cons(KwFrom, ts))))))
  {
    Spaced(reader, KwFrom, rest, ts);
    var from := TokenText(KwFrom) + " " + rest;
    Spaced(reader, Number(1), from, Cons(KwFrom, ts));
    var one := TokenText(Number(1)) + " " + from;
    Spaced(reader, KwSelect, one, Cons(Number(1), Cons(KwFrom, ts)));
    var select := TokenText(KwSelect) + " " + one;
    ReadsToken(reader, LParen, select, Cons(KwSelect, Cons(Number(1), Cons(KwFrom, ts))));
    var open := "(" + select;
    Spaced(reader, KwExists, open, Cons(LParen, Cons(KwSelect, Cons(Number(1), Cons(KwFrom, ts)))));
    SelectText(rest);
  }

  lemma SelectText(rest: string)
    ensures "EXISTS (SELECT 1 FROM " + rest ==
            TokenText(KwExists) + " " +
            ("(" + (TokenText(KwSelect) + " " + (TokenText(Number(1)) + " " + (TokenText(KwFrom) + " " + rest))))
  {
    assert TokenText(Number(1)) == "1";
    assert "EXISTS (SELECT 1 FROM " ==
           TokenText(KwExists) + " " + "(" + TokenText(KwSelect) + " " + "1" + " " + TokenText(KwFrom) + " ";
  }

  // ` = "tickets"."id"`
  lemma TicketIdPiece(reader: Reader, rest: string, ts: List<Token>)
    requires ObeysSpelling(reader)
    requires reader(rest, ts) && Clean(rest)
    ensures reader(" = \"tickets\".\"id\"" + rest, Cons(Compare(CmpEq), ColumnTokens(ColumnName("tickets", "id"), ts)))
  {
    var id := ColumnName("tickets", "id");
    QualifiedPiece(reader, id, rest, ts);
    var tail := Quoted("tickets") + "." + Quoted("id") + rest;
    Spaced(reader, Compare(CmpEq), tail, ColumnTokens(id, ts));
    assert " = \"tickets\".\"id\"" == " " + "=" + " " + (Quoted("tickets") + "." + Quoted("id"));
    assert " = \"tickets\".\"id\"" + rest == " " + TokenText(Compare(CmpEq)) + " " + tail;
  }

  lemma PlaceholderListText(a: nat, k: nat, rest: string)
    requires k > 0
    ensures Join(PlaceholderTexts(a, k), ", ") + rest ==
            PlaceholderText(a) + (if k == 1 then rest else ", " + (Join(PlaceholderTexts(a + 1, k - 1), ", ") + rest))
  {
    var texts := PlaceholderTexts(a, k);
    if k > 1 {
      assert texts[1..] == PlaceholderTexts(a + 1, k - 1);
      JoinStep(texts, ", ", rest);
    }
  }

  lemma PlaceholderComma(reader: Reader, a: nat, tail: string, ts: List<Token>)
    requires ObeysSpelling(reader) && reader(tail, ts)
    ensures reader(PlaceholderText(a) + (", " + tail), Cons(Placeholder(a), Cons(Comma, ts)))
  {
    ReadsGap(reader, tail, ts);
    ReadsToken(reader, Comma, " " + tail, ts);
    assert ", " + tail == "," + (" " + tail);
    ReadsToken(reader, Placeholder(a), ", " + tail, Cons(Comma, ts));
  }

  lemma {:induction false} PlaceholdersPiece(reader: Reader, a: nat, k: nat, rest: string, ts: List<Token>)
    requires ObeysSpelling(reader)
    requires k > 0 && reader(rest, ts) && Clean(rest)
    ensures reader(Join(PlaceholderTexts(a, k), ", ") + rest, PlaceholderTokens(a, k, ts))
    decreases k
  {
    PlaceholderListText(a, k, rest);
    if k == 1 {
      ReadsToken(reader, Placeholder(a), rest, ts);
    } else {
      PlaceholdersPiece(reader, a + 1, k - 1, rest, ts);
      PlaceholderComma(reader, a, Join(PlaceholderTexts(a + 1, k - 1), ", ") + rest,
                       PlaceholderTokens(a + 1, k - 1, ts));
    }
  }

  // ` IN ($a, $b, ...)` and its negation.
  lemma InListPiece(reader: Reader, a: nat, k: nat, rest: string, ts: List<Token>)
    requires ObeysSpelling(reader)
    requires k > 0 && reader(rest, ts)
    ensures var list := Join(PlaceholderTexts(a, k), ", ") + (")" + rest);
      var tokens := PlaceholderTokens(a, k, Cons(RParen, ts));
      reader(" IN (" + list, Cons(KwIn, Cons(LParen, tokens))) &&
      reader(" NOT IN (" + list, Cons(KwNot, Cons(KwIn, Cons(LParen, tokens))))
  {
    ReadsToken(reader, RParen, rest, ts);
    PlaceholdersPiece(reader, a, k, ")" + rest, Cons(RParen, ts));
    InPiece(reader, Join(PlaceholderTexts(a, k), ", ") + (")" + rest), PlaceholderTokens(a, k, Cons(RParen, ts)));
  }

  // --------------------------------------------------------- whole conditions

  lemma ExistsRowsPiece(reader: Reader, join: ExistsJoin, rest: string, ts: List<Token>)
    requires ObeysSpelling(reader)
    requires PlainName(join.table) && PlainName(join.joinColumn) && reader(rest, ts) && Clean(rest)
    ensures reader(ExistsRows(join) + rest, ExistsTokens(join, ts))
  {
    TicketIdPiece(reader, rest, ts);
    var tail1 := " = \"tickets\".\"id\"" + rest;
    var ts1 := Cons(Compare(CmpEq), ColumnTokens(ColumnName("tickets", "id"), ts));
    var name := ColumnName(join.table, join.joinColumn);
    QualifiedPiece(reader, name, tail1, ts1);
    var tail2 := Quoted(join.table) + "." + Quoted(join.joinColumn) + tail1;
    Spaced(reader, KwWhere, tail2, ColumnTokens(name, ts1));
    var tail3 := " " + TokenText(KwWhere) + " " + tail2;
    ReadsToken(reader, Name(join.table), tail3, Cons(KwWhere, ColumnTokens(name, ts1)));
    var tail4 := Quoted(join.table) + tail3;
    SelectPiece(reader, tail4, Cons(Name(join.table), Cons(KwWhere, ColumnTokens(name, ts1))));
    assert " WHERE " == " " + TokenText(KwWhere) + " ";
    Regroup8("EXISTS (SELECT 1 FROM ", Quoted(join.table), " WHERE ", "", Quoted(join.table), ".",
             Quoted(join.joinColumn), " = \"tickets\".\"id\"", rest);
    assert "EXISTS (SELECT 1 FROM " + Quoted(join.table) + " WHERE " + "" ==
           "EXISTS (SELECT 1 FROM " + Quoted(join.table) + " WHERE ";
    assert "" + tail2 == tail2;
  }

  // ` AND "table"."column" IN (...))`
  lemma ExistsListPiece(reader: Reader, join: ExistsJoin, n: nat, k: nat, rest: string, ts: List<Token>)
    requires ObeysSpelling(reader)
    requires PlainName(join.table) && PlainName(join.valueColumn) && k > 0 && reader(rest, ts)
    ensures var list := Join(PlaceholderTexts(n + 1, k), ", ") + (")" + (")" + rest));
      reader(" AND " + (Quoted(join.table) + "." + Quoted(join.valueColumn) + (" IN (" + list)),
             Cons(KwAnd, ColumnTokens(ColumnName(join.table, join.valueColumn), Cons(KwIn, Cons(LParen,
               PlaceholderTokens(n + 1, k, Cons(RParen, Cons(RParen, ts))))))))
  {
    ReadsToken(reader, RParen, rest, ts);
    InListPiece(reader, n + 1, k, ")" + rest, Cons(RParen, ts));
    var list := Join(PlaceholderTexts(n + 1, k), ", ") + (")" + (")" + rest));
    var name := ColumnName(join.table, join.valueColumn);
    var ts1 := Cons(KwIn, Cons(LParen, PlaceholderTokens(n + 1, k, Cons(RParen, Cons(RParen, ts)))));
    QualifiedPiece(reader, name, " IN (" + list, ts1);
    Spaced(reader, KwAnd, Quoted(join.table) + "." + Quoted(join.valueColumn) + (" IN (" + list),
           ColumnTokens(name, ts1));
    assert " AND " == " " + TokenText(KwAnd) + " ";
  }

  lemma ExistsInText(join: ExistsJoin, list: string, rest: string)
    ensures ExistsIn(join, list) + rest ==
            ExistsRows(join) +
            (" AND " +
             (Quoted(join.table) + "." + Quoted(join.valueColumn) + (" IN (" + (list + (")" + (")" + rest))))))
  {
    Regroup8(ExistsRows(join), " AND ", "", "", Quoted(join.table), ".", Quoted(join.valueColumn),
             " IN (" + list + "))", rest);
    assert ExistsRows(join) + " AND " + "" + "" == ExistsRows(join) + " AND ";
    assert (" IN (" + list + "))") + rest == " IN (" + (list + (")" + (")" + rest)));
    var column := Quoted(join.table) + "." + Quoted(join.valueColumn);
    assert "" + ("" + (column + (" IN (" + (list + (")" + (")" + rest)))))) ==
           column + (" IN (" + (list + (")" + (")" + rest))));
    assert ExistsIn(join, list) ==
           ExistsRows(join) + " AND " + Quoted(join.table) + "." + Quoted(join.valueColumn) + (" IN (" + list + "))");
  }

  lemma ExistsInPiece(reader: Reader, join: ExistsJoin, n: nat, k: nat, rest: string, ts: List<Token>)
    requires ObeysSpelling(reader)
    requires PlainName(join.table) && PlainName(join.joinColumn) && PlainName(join.valueColumn)
    requires k > 0 && reader(rest, ts)
    ensures reader(ExistsIn(join, Join(PlaceholderTexts(n + 1, k), ", ")) + rest, ExistsInTokens(join, n, k, ts))
  {
    var list := Join(PlaceholderTexts(n + 1, k), ", ");
    ExistsListPiece(reader, join, n, k, rest, ts);
    ExistsInText(join, list, rest);
    var tail :=
      " AND " + (Quoted(join.table) + "." + Quoted(join.valueColumn) + (" IN (" + (list + (")" + (")" + rest)))));
    ExistsRowsPiece(reader, join, tail,
      Cons(KwAnd, ColumnTokens(ColumnName(join.table, join.valueColumn), Cons(KwIn, Cons(LParen,
        PlaceholderTokens(n + 1, k, Cons(RParen, Cons(RParen, ts))))))));
  }

  lemma NegatedPiece(reader: Reader, text: string, ts: List<Token>)
    requires ObeysSpelling(reader)
    requires reader(text, ts)
    ensures reader("NOT " + text, Cons(KwNot, ts))
  {
    Spaced(reader, KwNot, text, ts);
    assert "NOT " + text == TokenText(KwNot) + " " + text;
  }

  lemma NullCheckPiece(reader: Reader, entry: FieldEntry, name: ColumnName, op: Operator, rest: string, ts: List<Token>)
    requires ObeysSpelling(reader)
    requires op == OpIsNull || op == OpIsNotNull
    requires NamesColumn(entry, name) && reader(rest, ts) && Clean(rest)
    ensures reader(NullCheckSql(entry, op) + rest, ConditionTokens(Condition(Status, op, JNull), 0, entry, name, ts))
  {
    match entry.join
    case Some(join) =>
      ReadsToken(reader, RParen, rest, ts);
      ExistsRowsPiece(reader, join, ")" + rest, Cons(RParen, ts));
      var text := ExistsRows(join) + (")" + rest);
      assert (ExistsRows(join) + ")") + rest == text;
      NegatedPiece(reader, text, ExistsTokens(join, Cons(RParen, ts)));
      assert ("NOT " + (ExistsRows(join) + ")")) + rest == "NOT " + text;
    case None =>
      IsNullPiece(reader, rest, ts);
      ColumnPiece(reader, entry, name, " IS NULL" + rest, Cons(KwIs, Cons(KwNull, ts)));
      ColumnPiece(reader, entry, name, " IS NOT NULL" + rest, Cons(KwIs, Cons(KwNot, Cons(KwNull, ts))));
      assert (entry.column + " IS NULL") + rest == entry.column + (" IS NULL" + rest);
      assert (entry.column + " IS NOT NULL") + rest == entry.column + (" IS NOT NULL" + rest);
  }

  lemma MembershipPiece(reader: Reader, entry: FieldEntry, name: ColumnName, op: Operator, n: nat, k: nat,
                        rest: string, ts: List<Token>)
    requires ObeysSpelling(reader)
    requires (op == OpIn || op == OpNotIn) && k > 0
    requires NamesColumn(entry, name) && reader(rest, ts) && Clean(rest)
    ensures var items := JArr(seq(k, i => JNull));
      reader(MembershipSql(entry, op, n, k) + rest, ConditionTokens(Condition(Status, op, items), n, entry, name, ts))
  {
    var list := Join(PlaceholderTexts(n + 1, k), ", ");
    match entry.join
    case Some(join) =>
      ExistsInPiece(reader, join, n, k, rest, ts);
      var text := ExistsIn(join, list) + rest;
      NegatedPiece(reader, text, ExistsInTokens(join, n, k, ts));
      assert ("NOT " + ExistsIn(join, list)) + rest == "NOT " + text;
    case None =>
      InListPiece(reader, n + 1, k, rest, ts);
      var tokens := PlaceholderTokens(n + 1, k, Cons(RParen, ts));
      ColumnPiece(reader, entry, name, " IN (" + (list + (")" + rest)), Cons(KwIn, Cons(LParen, tokens)));
      ColumnPiece(reader, entry, name, " NOT IN (" + (list + (")" + rest)),
                  Cons(KwNot, Cons(KwIn, Cons(LParen, tokens))));
      Regroup4(entry.column, " IN (", list, ")", rest);
      Regroup4(entry.column, " NOT IN (", list, ")", rest);
  }

  lemma BetweenPiece(reader: Reader, entry: FieldEntry, name: ColumnName, n: nat, rest: string, ts: List<Token>)
    requires ObeysSpelling(reader)
    requires NamesColumn(entry, name) && reader(rest, ts) && Clean(rest)
    ensures reader((entry.column + " BETWEEN " + PlaceholderText(n + 1) + " AND " + PlaceholderText(n + 2)) + rest,
                   ColumnTokens(name,
                     Cons(KwBetween, Cons(Placeholder(n + 1), Cons(KwAnd, Cons(Placeholder(n + 2), ts))))))
  {
    ReadsToken(reader, Placeholder(n + 2), rest, ts);
    var high := PlaceholderText(n + 2) + rest;
    var ts1 := Cons(Placeholder(n + 2), ts);
    Spaced(reader, KwAnd, high, ts1);
    var and := " " + TokenText(KwAnd) + " " + high;
    ReadsToken(reader, Placeholder(n + 1), and, Cons(KwAnd, ts1));
    var low := PlaceholderText(n + 1) + and;
    Spaced(reader, KwBetween, low, Cons(Placeholder(n + 1), Cons(KwAnd, ts1)));
    var between := " " + TokenText(KwBetween) + " " + low;
    ColumnPiece(reader, entry, name, between, Cons(KwBetween, Cons(Placeholder(n + 1), Cons(KwAnd, ts1))));
    BetweenText(entry.column, PlaceholderText(n + 1), PlaceholderText(n + 2), rest);
  }

  lemma BetweenText(column: string, low: string, high: string, rest: string)
    ensures (column + " BETWEEN " + low + " AND " + high) + rest ==
            column + (" " + TokenText(KwBetween) + " " + (low + (" " + TokenText(KwAnd) + " " + (high + rest))))
  {
    assert " AND " == " " + TokenText(KwAnd) + " " && " BETWEEN " == " " + TokenText(KwBetween) + " ";
    Regroup5(column, " BETWEEN ", low, " AND ", high, rest);
  }

  lemma ContainsPiece(reader: Reader, entry: FieldEntry, name: ColumnName, n: nat, rest: string, ts: List<Token>)
    requires ObeysSpelling(reader)
    requires NamesColumn(entry, name) && reader(rest, ts) && Clean(rest)
    ensures reader((entry.column + " ILIKE " + PlaceholderText(n + 1)) + rest,
                   ColumnTokens(name, Cons(KwILike, Cons(Placeholder(n + 1), ts))))
  {
    ReadsToken(reader, Placeholder(n + 1), rest, ts);
    var tail := PlaceholderText(n + 1) + rest;
    Spaced(reader, KwILike, tail, Cons(Placeholder(n + 1), ts));
    ColumnPiece(reader, entry, name, " " + TokenText(KwILike) + " " + tail,
                Cons(KwILike, Cons(Placeholder(n + 1), ts)));
    assert " ILIKE " == " " + TokenText(KwILike) + " ";
    Regroup3(entry.column, " ILIKE ", PlaceholderText(n + 1), rest);
  }

  lemma ScalarPiece(reader: Reader, entry: FieldEntry, name: ColumnName, op: Operator, n: nat, rest: string,
                    ts: List<Token>)
    requires ObeysSpelling(reader)
    requires NamesColumn(entry, name) && reader(rest, ts) && Clean(rest)
    requires ScalarSql(entry.column, op, PlaceholderText(n + 1)).Ok?
    ensures reader(ScalarSql(entry.column, op, PlaceholderText(n + 1)).value + rest,
                   ColumnTokens(name, Cons(Compare(CompareOf(op)), Cons(Placeholder(n + 1), ts))))
  {
    ReadsToken(reader, Placeholder(n + 1), rest, ts);
    var tail := PlaceholderText(n + 1) + rest;
    var w := TokenText(Compare(CompareOf(op)));
    Spaced(reader, Compare(CompareOf(op)), tail, Cons(Placeholder(n + 1), ts));
    ColumnPiece(reader, entry, name, " " + w + " " + tail, Cons(Compare(CompareOf(op)), Cons(Placeholder(n + 1), ts)));
    ScalarText(entry.column, op, PlaceholderText(n + 1), rest);
  }

  lemma ScalarText(column: string, op: Operator, placeholder: string, rest: string)
    requires ScalarSql(column, op, placeholder).Ok?
    ensures ScalarSql(column, op, placeholder).value + rest ==
            column + (" " + TokenText(Compare(CompareOf(op))) + " " + (placeholder + rest))
  {
    var w := " " + TokenText(Compare(CompareOf(op))) + " ";
    assert ScalarSql(column, op, placeholder).value == column + w + placeholder;
    Regroup3(column, w, placeholder, rest);
  }

  // Conditions that a relation may answer.
  lemma RelationalPiece(reader: Reader, c: FilterNode, n: nat, catalog: Catalog, name: ColumnName, rest: string,
                        ts: List<Token>)
    requires ObeysSpelling(reader)
    requires c.Condition? && c.operator in {OpIsNull, OpIsNotNull, OpIn, OpNotIn}
    requires CompileCondition(c, n, catalog).Ok?
    requires NamesColumn(catalog.lookup(c.field).value, name) && reader(rest, ts) && Clean(rest)
    ensures reader(CompileCondition(c, n, catalog).value.sql + rest,
                   ConditionTokens(c, n, catalog.lookup(c.field).value, name, ts))
  {
    var entry := catalog.lookup(c.field).value;
    if c.operator == OpIsNull || c.operator == OpIsNotNull {
      NullCheckPiece(reader, entry, name, c.operator, rest, ts);
    } else {
      MembershipPiece(reader, entry, name, c.operator, n, |c.value.items|, rest, ts);
    }
  }

  // Conditions that compare the column with bound values.
  lemma AttributePiece(reader: Reader, c: FilterNode, n: nat, catalog: Catalog, name: ColumnName, rest: string,
                       ts: List<Token>)
    requires ObeysSpelling(reader)
    requires c.Condition? && c.operator !in {OpIsNull, OpIsNotNull, OpIn, OpNotIn}
    requires CompileCondition(c, n, catalog).Ok?
    requires NamesColumn(catalog.lookup(c.field).value, name) && reader(rest, ts) && Clean(rest)
    ensures reader(CompileCondition(c, n, catalog).value.sql + rest,
                   ConditionTokens(c, n, catalog.lookup(c.field).value, name, ts))
  {
    var entry := catalog.lookup(c.field).value;
    if c.operator == OpBetween {
      BetweenPiece(reader, entry, name, n, rest, ts);
    } else if c.operator == OpContains {
      ContainsPiece(reader, entry, name, n, rest, ts);
    } else {
      ScalarPiece(reader, entry, name, c.operator, n, rest, ts);
    }
  }

  lemma ConditionPiece(reader: Reader, c: FilterNode, n: nat, catalog: Catalog, name: ColumnName, rest: string,
                       ts: List<Token>)
    requires ObeysSpelling(reader)
    requires c.Condition? && CompileCondition(c, n, catalog).Ok?
    requires NamesColumn(catalog.lookup(c.field).value, name) && reader(rest, ts) && Clean(rest)
    ensures reader(CompileCondition(c, n, catalog).value.sql + rest,
                   ConditionTokens(c, n, catalog.lookup(c.field).value, name, ts))
  {
    if c.operator in {OpIsNull, OpIsNotNull, OpIn, OpNotIn} {
      RelationalPiece(reader, c, n, catalog, name, rest, ts);
    } else {
      AttributePiece(reader, c, n, catalog, name, rest, ts);
    }
  }

  // ------------------------------------------------------------ whole filters

  lemma SeparatorPiece(reader: Reader, op: GroupOp, tail: string, ts: List<Token>)
    requires ObeysSpelling(reader) && reader(tail, ts)
    ensures reader(Separator(op) + tail, Cons(Joiner(op), ts)) && Clean(Separator(op) + tail)
  {
    Spaced(reader, Joiner(op), tail, ts);
    assert Separator(op) == " " + TokenText(Joiner(op)) + " ";
  }

  lemma ConditionNodePiece(reader: Reader, c: FilterNode, n: nat, catalog: Catalog, naming: Naming, rest: string,
                           ts: List<Token>)
    requires ObeysSpelling(reader)
    requires c.Condition? && CatalogNames(catalog, naming) && CompileCondition(c, n, catalog).Ok?
    requires reader(rest, ts) && Clean(rest)
    ensures reader(CompileCondition(c, n, catalog).value.sql + rest, NodeTokens(c, n, catalog, naming, ts))
  {
    ConditionPiece(reader, c, n, catalog, naming(c.field), rest, ts);
  }

  lemma {:induction false} NodePiece(reader: Reader, node: FilterNode, n: nat, catalog: Catalog, naming: Naming,
                                     compiled: Compiled, rest: string, ts: List<Token>)
    requires ObeysSpelling(reader)
    requires CatalogNames(catalog, naming) && CompileNode(node, n, catalog) == Ok(compiled)
    requires reader(rest, ts) && Clean(rest)
    ensures reader(compiled.sql + rest, NodeTokens(node, n, catalog, naming, ts))
    decreases node, 1
  {
    hide FilterCompile.CompileCondition, CompileTokens.ConditionTokens;
    match node
    case Condition(_, _, _) => ConditionNodePiece(reader, node, n, catalog, naming, rest, ts);
    case Group(op, children) =>
      if children == [] {
        ReadsToken(reader, if op == AllOf then KwTrue else KwFalse, rest, ts);
      } else {
        var parts := CompileChildren(children, |children|, n, catalog).value;
        ReadsToken(reader, RParen, rest, ts);
        ChildrenPiece(reader, children, 0, n, op, catalog, naming, parts, ")" + rest, Cons(RParen, ts));
        var inner := Join(parts.texts, Separator(op));
        assert parts.texts[0..] == parts.texts;
        ReadsToken(reader, LParen, inner + (")" + rest),
                   ChildTokens(children, 0, n, op, catalog, naming, Cons(RParen, ts)));
        Regroup3("(", inner, ")", rest);
      }
  }

  lemma {:induction false} ChildPiece(reader: Reader, children: seq<FilterNode>, i: nat, n: nat, catalog: Catalog,
                                      naming: Naming, parts: Parts, rest: string, ts: List<Token>)
    requires ObeysSpelling(reader)
    requires CatalogNames(catalog, naming) && i < |children|
    requires CompileChildren(children, |children|, n, catalog) == Ok(parts)
    requires reader(rest, ts) && Clean(rest)
    ensures reader(parts.texts[i] + rest, NodeTokens(children[i], n + Offset(children, i), catalog, naming, ts))
    decreases children[i], 2
  {
    hide FilterCompile.CompileCondition;
    var compiled, lo := ChildCompiles(children, i, n, catalog, parts);
    NodePiece(reader, children[i], n + Offset(children, i), catalog, naming, compiled, rest, ts);
  }

  lemma {:induction false} ChildrenPiece(reader: Reader, children: seq<FilterNode>, i: nat, n: nat, op: GroupOp,
                                         catalog: Catalog, naming: Naming, parts: Parts, rest: string, ts: List<Token>)
    requires ObeysSpelling(reader)
    requires CatalogNames(catalog, naming) && i < |children|
    requires CompileChildren(children, |children|, n, catalog) == Ok(parts)
    requires reader(rest, ts) && Clean(rest)
    ensures reader(Join(parts.texts[i..], Separator(op)) + rest, ChildTokens(children, i, n, op, catalog, naming, ts))
    decreases children, |children| - i
  {
    hide FilterCompile.CompileCondition;
    if i + 1 == |children| {
      LastChildPiece(reader, children, n, op, catalog, naming, parts, rest, ts);
    } else {
      ChildrenPiece(reader, children, i + 1, n, op, catalog, naming, parts, rest, ts);
      NextChildPiece(reader, children, i, n, op, catalog, naming, parts, rest, ts);
    }
  }

  lemma {:induction false} LastChildPiece(reader: Reader, children: seq<FilterNode>, n: nat, op: GroupOp,
                                          catalog: Catalog, naming: Naming, parts: Parts, rest: string,
                                          ts: List<Token>)
    requires ObeysSpelling(reader)
    requires CatalogNames(catalog, naming) && children != []
    requires CompileChildren(children, |children|, n, catalog) == Ok(parts)
    requires reader(rest, ts) && Clean(rest)
    ensures var i := |children| - 1;
      reader(Join(parts.texts[i..], Separator(op)) + rest, ChildTokens(children, i, n, op, catalog, naming, ts))
    decreases children, 0
  {
    hide FilterCompile.CompileCondition;
    ChildPiece(reader, children, |children| - 1, n, catalog, naming, parts, rest, ts);
    JoinFrom(parts.texts, |children| - 1, Separator(op), rest);
  }

  // One child in front of a list that reads as its tokens.
  lemma {:induction false} NextChildPiece(reader: Reader, children: seq<FilterNode>, i: nat, n: nat, op: GroupOp,
                                          catalog: Catalog, naming: Naming, parts: Parts, rest: string,
                                          ts: List<Token>)
    requires ObeysSpelling(reader)
    requires CatalogNames(catalog, naming) && i + 1 < |children|
    requires CompileChildren(children, |children|, n, catalog) == Ok(parts)
    requires reader(Join(parts.texts[i + 1..], Separator(op)) + rest,
                    ChildTokens(children, i + 1, n, op, catalog, naming, ts))
    ensures reader(Join(parts.texts[i..], Separator(op)) + rest, ChildTokens(children, i, n, op, catalog, naming, ts))
    decreases children, 0
  {
    hide FilterCompile.CompileCondition;
    var tail := Join(parts.texts[i + 1..], Separator(op)) + rest;
    var tokens := ChildTokens(children, i + 1, n, op, catalog, naming, ts);
    SeparatorPiece(reader, op, tail, tokens);
    ChildPiece(reader, children, i, n, catalog, naming, parts, Separator(op) + tail, Cons(Joiner(op), tokens));
    JoinFrom(parts.texts, i, Separator(op), rest);
  }

  lemma JoinFrom(texts: seq<string>, i: nat, sep: string, rest: string)
    requires i < |texts|
    ensures Join(texts[i..], sep) + rest ==
            if i + 1 == |texts| then texts[i] + rest else texts[i] + (sep + (Join(texts[i + 1..], sep) + rest))
  {
    if i + 1 < |texts| {
      assert texts[i..][1..] == texts[i + 1..];
      JoinStep(texts[i..], sep, rest);
    }
  }

  // Lexing the compiled text of a filter gives its tokens.
  lemma CompiledTextLexes(node: FilterNode, n: nat, catalog: Catalog, naming: Naming)
    requires CatalogNames(catalog, naming) && CompileNode(node, n, catalog).Ok?
    ensures Lex(CompileNode(node, n, catalog).value.sql) == Some(NodeTokens(node, n, catalog, naming, Nil))
  {
    LexerObeysSpelling();
    NodePiece(LexerReads(), node, n, catalog, naming, CompileNode(node, n, catalog).value, "", Nil);
    assert CompileNode(node, n, catalog).value.sql + "" == CompileNode(node, n, catalog).value.sql;
  }
}
