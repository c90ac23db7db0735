/** JSON.stringify, and the proof that its output determines the value (RFC 8259 grammar). */
module JsonText {
  import opened Json

  // ------------------------------------------------------------------ printing

  function HexDigit(n: nat): char
    requires n < 16
  {
    "0123456789abcdef"[n]
  }

  // One character inside a JSON string literal.
  function EscapeChar(c: char): string {
    if c == '"' then "\\\""
    else if c == '\\' then "\\\\"
    else if c == '\n' then "\\n"
    else if c == '\r' then "\\r"
    else if c == '\t' then "\\t"
    else if c as int == 8 then "\\b"
    else if c as int == 12 then "\\f"
    else if c as int < 32 then "\\u00" + [HexDigit(c as int / 16), HexDigit(c as int % 16)]
    else [c]
  }

  // Every printer takes the text that follows what it prints.

  function WriteString(s: string, rest: string): string {
    "\"" + WriteChars(s, rest)
  }

  function WriteChars(s: string, rest: string): string {
    if s == "" then "\"" + rest else EscapeChar(s[0]) + WriteChars(s[1..], rest)
  }

  function Write(v: Json, rest: string): string
    decreases v
  {
    match v
    case JNull => "null" + rest
    case JBool(b) => (if b then "true" else "false") + rest
    case JNum(text) => text + rest
    case JStr(s) => WriteString(s, rest)
    case JArr(items) => "[" + WriteItems(items, 0, rest)
    case JObj(fields) => "{" + WriteFields(fields, 0, rest)
  }

  function Comma(i: nat, rest: string): string {
    if i == 0 then rest else "," + rest
  }

  // items[i..] with their commas and the closing bracket.
  function WriteItems(items: seq<Json>, i: nat, rest: string): string
    requires i <= |items|
    decreases items, |items| - i
  {
    if i == |items| then "]" + rest else Comma(i, Write(items[i], WriteItems(items, i + 1, rest)))
  }

  function WriteFields(fields: seq<Field>, i: nat, rest: string): string
    requires i <= |fields|
    decreases fields, |fields| - i
  {
    if i == |fields| then "}" + rest else Comma(i, WriteField(fields[i], WriteFields(fields, i + 1, rest)))
  }

  function WriteField(f: Field, rest: string): string
    decreases f
  {
    WriteString(f.key, ":" + Write(f.value, rest))
  }

  function Stringify(v: Json): string {
    Write(v, "")
  }

  // ------------------------------------------------------------- what is printed

  predicate IsNumberChar(c: char) {
    '0' <= c <= '9' || c == '-' || c == '+' || c == '.' || c == 'e' || c == 'E'
  }

  // Numbers are carried as JavaScript prints them.
  predicate IsNumberText(t: string) {
    t != "" && ('0' <= t[0] <= '9' || t[0] == '-') && forall i :: 0 <= i < |t| ==> IsNumberChar(t[i])
  }

  // Every number of a value is of some kind.
  predicate NumbersAre(v: Json, kind: string -> bool)
    decreases v
  {
    match v
    case JNum(text) => kind(text)
    case JArr(items) => forall i :: 0 <= i < |items| ==> NumbersAre(items[i], kind)
    case JObj(fields) => forall i :: 0 <= i < |fields| ==> NumbersAre(fields[i].value, kind)
    case _ => true
  }

  predicate NumbersPrinted(v: Json) {
    NumbersAre(v, IsNumberText)
  }

  // What may follow a value.
  predicate Delimited(x: string) {
    x == "" || x[0] == ',' || x[0] == ']' || x[0] == '}'
  }

  // ----------------------------------------------------------------- uniqueness

  lemma HexDigitInjective(m: nat, n: nat)
    requires m < 16 && n < 16 && HexDigit(m) == HexDigit(n)
    ensures m == n
  {
  }

  lemma EscapeCharShape(c: char)
    ensures EscapeChar(c) != "" && EscapeChar(c)[0] != '"'
    ensures |EscapeChar(c)| == 1 ==> EscapeChar(c) == [c] && c != '\\'
    ensures |EscapeChar(c)| > 1 ==> EscapeChar(c)[0] == '\\'
  {
  }

  lemma Cancel(p: string, x: string, y: string)
    requires p + x == p + y
    ensures x == y
  {
    assert x == (p + x)[|p|..] && y == (p + y)[|p|..];
  }

  lemma EscapeCharUnique(c: char, d: char, x: string, y: string)
    requires EscapeChar(c) + x == EscapeChar(d) + y
    ensures c == d && x == y
  {
    EscapeCharShape(c);
    EscapeCharShape(d);
    var s := EscapeChar(c) + x;
    assert s[0] == EscapeChar(c)[0] == EscapeChar(d)[0];
    if |EscapeChar(c)| == 1 {
      assert |EscapeChar(d)| == 1;
    } else {
      assert s[1] == EscapeChar(c)[1] == EscapeChar(d)[1];
      if |EscapeChar(c)| == 6 {
        assert s[4] == EscapeChar(c)[4] == EscapeChar(d)[4];
        assert s[5] == EscapeChar(c)[5] == EscapeChar(d)[5];
        HexDigitInjective(c as int / 16, d as int / 16);
        HexDigitInjective(c as int % 16, d as int % 16);
      }
    }
    Cancel(EscapeChar(c), x, y);
  }

  lemma CharsStart(s: string, x: string)
    ensures var w := WriteChars(s, x); w != "" && (s == "" <==> w[0] == '"')
  {
    if s != "" {
      EscapeCharShape(s[0]);
      assert WriteChars(s, x)[0] == EscapeChar(s[0])[0];
    }
  }

  lemma {:induction false} CharsUnique(s: string, t: string, x: string, y: string)
    requires WriteChars(s, x) == WriteChars(t, y)
    ensures s == t && x == y
    decreases |s|
  {
    CharsStart(s, x);
    CharsStart(t, y);
    if s == "" {
      Cancel("\"", x, y);
    } else {
      EscapeCharUnique(s[0], t[0], WriteChars(s[1..], x), WriteChars(t[1..], y));
      CharsUnique(s[1..], t[1..], x, y);
      assert s == [s[0]] + s[1..] && t == [t[0]] + t[1..];
    }
  }

  lemma StringUnique(s: string, t: string, x: string, y: string)
    requires WriteString(s, x) == WriteString(t, y)
    ensures s == t && x == y
  {
    Cancel("\"", WriteChars(s, x), WriteChars(t, y));
    CharsUnique(s, t, x, y);
  }

  // Length of the number at the start of a text.
  function NumberRun(s: string): nat {
    if s == "" || !IsNumberChar(s[0]) then 0 else 1 + NumberRun(s[1..])
  }

  lemma {:induction false} RunOfNumber(t: string, x: string)
    requires Delimited(x) && forall i :: 0 <= i < |t| ==> IsNumberChar(t[i])
    ensures NumberRun(t + x) == |t|
  {
    if t == "" {
      assert t + x == x;
    } else {
      assert (t + x)[0] == t[0] && (t + x)[1..] == t[1..] + x;
      RunOfNumber(t[1..], x);
    }
  }

  lemma NumberUnique(t: string, u: string, x: string, y: string)
    requires IsNumberText(t) && IsNumberText(u) && Delimited(x) && Delimited(y) && t + x == u + y
    ensures t == u && x == y
  {
    RunOfNumber(t, x);
    RunOfNumber(u, y);
    assert t == (t + x)[..|t|] && u == (u + y)[..|u|];
    Cancel(t, x, y);
  }

  datatype Kind = NullKind | TrueKind | FalseKind | NumKind | StrKind | ArrKind | ObjKind

  function KindOf(v: Json): Kind {
    match v
    case JNull => NullKind
    case JBool(b) => if b then TrueKind else FalseKind
    case JNum(_) => NumKind
    case JStr(_) => StrKind
    case JArr(_) => ArrKind
    case JObj(_) => ObjKind
  }

  function KindOfChar(c: char): Kind {
    if c == 'n' then NullKind
    else if c == 't' then TrueKind
    else if c == 'f' then FalseKind
    else if c == '"' then StrKind
    else if c == '[' then ArrKind
    else if c == '{' then ObjKind
    else NumKind
  }

  // The first character tells the kind, and never closes or separates.
  lemma FirstChar(v: Json, x: string)
    requires NumbersPrinted(v)
    ensures var s := Write(v, x);
      s != "" && KindOfChar(s[0]) == KindOf(v) && s[0] != ',' && s[0] != ']' && s[0] != '}'
  {
  }

  // JSON text determines the value it spells, even at the head of a longer text.
  lemma {:induction false} WriteUnique(a: Json, b: Json, x: string, y: string)
    requires NumbersPrinted(a) && NumbersPrinted(b) && Delimited(x) && Delimited(y)
    requires Write(a, x) == Write(b, y)
    ensures a == b && x == y
    decreases a, 1
  {
    FirstChar(a, x);
    FirstChar(b, y);
    assert KindOf(a) == KindOf(b);
    match a
    case JNull => Cancel("null", x, y);
    case JBool(v) => Cancel(if v then "true" else "false", x, y);
    case JNum(t) => NumberUnique(t, b.text, x, y);
    case JStr(s) => StringUnique(s, b.s, x, y);
    case JArr(items) =>
      Cancel("[", WriteItems(items, 0, x), WriteItems(b.items, 0, y));
      ItemsUnique(items, b.items, 0, x, y);
    case JObj(fields) =>
      Cancel("{", WriteFields(fields, 0, x), WriteFields(b.fields, 0, y));
      FieldsUnique(fields, b.fields, 0, x, y);
  }

  lemma ItemsStart(items: seq<Json>, i: nat, x: string)
    requires i <= |items| && forall k :: 0 <= k < |items| ==> NumbersPrinted(items[k])
    ensures var s := WriteItems(items, i, x);
      s != "" && (i == |items| <==> s[0] == ']') && (i > 0 ==> Delimited(s))
  {
    if i < |items| {
      FirstChar(items[i], WriteItems(items, i + 1, x));
    }
  }

  lemma CommaUnique(i: nat, x: string, y: string)
    requires Comma(i, x) == Comma(i, y)
    ensures x == y
  {
    if i > 0 {
      Cancel(",", x, y);
    }
  }

  lemma {:induction false} ItemsUnique(a: seq<Json>, b: seq<Json>, i: nat, x: string, y: string)
    requires i <= |a| && i <= |b| && a[..i] == b[..i]
    requires forall k :: 0 <= k < |a| ==> NumbersPrinted(a[k])
    requires forall k :: 0 <= k < |b| ==> NumbersPrinted(b[k])
    requires WriteItems(a, i, x) == WriteItems(b, i, y)
    ensures a == b && x == y
    decreases a, |a| - i
  {
    ItemsStart(a, i, x);
    ItemsStart(b, i, y);
    if i == |a| {
      assert a == a[..i] && b == b[..i];
      Cancel("]", x, y);
    } else {
      var ax, bx := WriteItems(a, i + 1, x), WriteItems(b, i + 1, y);
      ItemsStart(a, i + 1, x);
      ItemsStart(b, i + 1, y);
      CommaUnique(i, Write(a[i], ax), Write(b[i], bx));
      WriteUnique(a[i], b[i], ax, bx);
      ItemsUnique(a, b, i + 1, x, y);
    }
  }

  lemma FieldsStart(fields: seq<Field>, i: nat, x: string)
    requires i <= |fields|
    ensures var s := WriteFields(fields, i, x);
      s != "" && (i == |fields| <==> s[0] == '}') && (i > 0 ==> Delimited(s))
  {
    if i < |fields| {
      assert WriteField(fields[i], WriteFields(fields, i + 1, x))[0] == '"';
    }
  }

  lemma {:induction false} FieldUnique(f: Field, g: Field, x: string, y: string)
    requires NumbersPrinted(f.value) && NumbersPrinted(g.value) && Delimited(x) && Delimited(y)
    requires WriteField(f, x) == WriteField(g, y)
    ensures f == g && x == y
    decreases f, 2
  {
    var fx, gy := Write(f.value, x), Write(g.value, y);
    StringUnique(f.key, g.key, ":" + fx, ":" + gy);
    Cancel(":", fx, gy);
    WriteUnique(f.value, g.value, x, y);
  }

  lemma {:induction false} FieldsUnique(a: seq<Field>, b: seq<Field>, i: nat, x: string, y: string)
    requires i <= |a| && i <= |b| && a[..i] == b[..i]
    requires forall k :: 0 <= k < |a| ==> NumbersPrinted(a[k].value)
    requires forall k :: 0 <= k < |b| ==> NumbersPrinted(b[k].value)
    requires WriteFields(a, i, x) == WriteFields(b, i, y)
    ensures a == b && x == y
    decreases a, |a| - i
  {
    FieldsStart(a, i, x);
    FieldsStart(b, i, y);
    if i == |a| {
      assert a == a[..i] && b == b[..i];
      Cancel("}", x, y);
    } else {
      var ax, bx := WriteFields(a, i + 1, x), WriteFields(b, i + 1, y);
      FieldsStart(a, i + 1, x);
      FieldsStart(b, i + 1, y);
      CommaUnique(i, WriteField(a[i], ax), WriteField(b[i], bx));
      FieldUnique(a[i], b[i], ax, bx);
      FieldsUnique(a, b, i + 1, x, y);
    }
  }

  lemma StringifyInjective(a: Json, b: Json)
    requires NumbersPrinted(a) && NumbersPrinted(b) && Stringify(a) == Stringify(b)
    ensures a == b
  {
    WriteUnique(a, b, "", "");
  }
}
