/**
 * A JSON reader by the grammar of RFC 8259 (sections 2 to 7), and the proof that it reads
 * what JSON.stringify prints back as the value that was printed.
 */
module JsonReader {
  import opened Basics
  import opened Json
  import opened Text
  import opened JsonText

  type Read<T> = Option<(T, string)>

  // ------------------------------------------------------------------ whitespace

  predicate IsSpace(c: char) {
    c == ' ' || c == '\t' || c == '\n' || c == '\r'
  }

  function SkipSpace(s: string): (r: string)
    ensures |r| <= |s|
  {
    if s != "" && IsSpace(s[0]) then SkipSpace(s[1..]) else s
  }

  // --------------------------------------------------------------------- numbers

  function AfterDigits(s: string): (r: string)
    ensures |r| <= |s|
  {
    if s != "" && IsDigit(s[0]) then AfterDigits(s[1..]) else s
  }

  function AfterSomeDigits(s: string): Option<string> {
    if s != "" && IsDigit(s[0]) then Some(AfterDigits(s)) else None
  }

  // zero, or a digit that is not zero and any digits
  function AfterInt(s: string): Option<string> {
    if s != "" && s[0] == '0' then Some(s[1..]) else AfterSomeDigits(s)
  }

  function AfterFrac(s: string): Option<string> {
    if s != "" && s[0] == '.' then AfterSomeDigits(s[1..]) else Some(s)
  }

  function AfterSign(s: string): string {
    if s != "" && (s[0] == '+' || s[0] == '-') then s[1..] else s
  }

  function AfterExp(s: string): Option<string> {
    if s != "" && (s[0] == 'e' || s[0] == 'E') then AfterSomeDigits(AfterSign(s[1..])) else Some(s)
  }

  function AfterMinus(s: string): string {
    if s != "" && s[0] == '-' then s[1..] else s
  }

  // What follows the number at the start of s.
  function AfterNumber(s: string): Option<string> {
    match AfterInt(AfterMinus(s))
    case None => None
    case Some(t) =>
      match AfterFrac(t)
      case None => None
      case Some(u) => AfterExp(u)
  }

  predicate IsJsonNumber(t: string) {
    AfterNumber(t) == Some("")
  }

  lemma AfterNumberShrinks(s: string)
    ensures AfterNumber(s).Some? ==> |AfterNumber(s).value| < |s|
  {
  }

  function ReadNumber(s: string): (r: Read<Json>)
    ensures r.Some? ==> |r.value.1| < |s|
  {
    AfterNumberShrinks(s);
    match AfterNumber(s)
    case None => None
    case Some(rest) => Some((JNum(s[..|s| - |rest|]), rest))
  }

  // --------------------------------------------------------------------- strings

  function HexValue(c: char): Option<nat> {
    if '0' <= c <= '9' then Some(c as int - '0' as int)
    else if 'a' <= c <= 'f' then Some(c as int - 'a' as int + 10)
    else if 'A' <= c <= 'F' then Some(c as int - 'A' as int + 10)
    else None
  }

  // The code unit of four hexadecimal digits.
  function HexCode(s: string): (r: Option<nat>)
    ensures r.Some? ==> |s| >= 4 && r.value < 0x1_0000
  {
    if |s| < 4 then None
    else
      match (HexValue(s[0]), HexValue(s[1]), HexValue(s[2]), HexValue(s[3]))
      case (Some(a), Some(b), Some(c), Some(d)) =>
        if a < 16 && b < 16 && c < 16 && d < 16 then Some(0x1000 * a + 0x100 * b + 0x10 * c + d) else None
      case _ => None
  }

  // The character of a \u escape; s follows the u. Two escapes spell a character beyond
  // the basic plane, and half of such a pair spells none.
  function ReadUnicode(s: string): (r: Read<char>)
    ensures r.Some? ==> |r.value.1| < |s|
  {
    match HexCode(s)
    case None => None
    case Some(high) =>
      if high < 0xD800 || high >= 0xE000 then Some((high as char, s[4..]))
      else if high >= 0xDC00 || |s| < 6 || s[4] != '\\' || s[5] != 'u' then None
      else
        match HexCode(s[6..])
        case None => None
        case Some(low) =>
          if low < 0xDC00 || low >= 0xE000 then None
          else Some(((0x1_0000 + 0x400 * (high - 0xD800) + (low - 0xDC00)) as char, s[10..]))
  }

  // The character of an escape; s follows the backslash.
  function ReadEscape(s: string): (r: Read<char>)
    ensures r.Some? ==> |r.value.1| < |s|
  {
    if s == "" then None
    else if s[0] == '"' || s[0] == '\\' || s[0] == '/' then Some((s[0], s[1..]))
    else if s[0] == 'b' then Some((8 as char, s[1..]))
    else if s[0] == 'f' then Some((12 as char, s[1..]))
    else if s[0] == 'n' then Some(('\n', s[1..]))
    else if s[0] == 'r' then Some(('\r', s[1..]))
    else if s[0] == 't' then Some(('\t', s[1..]))
    else if s[0] == 'u' then ReadUnicode(s[1..])
    else None
  }

  // One character of a string, escaped or not.
  function ReadChar(s: string): (r: Read<char>)
    ensures r.Some? ==> |r.value.1| < |s|
  {
    if s == "" || s[0] == '"' || s[0] as int < 0x20 then None
    else if s[0] == '\\' then ReadEscape(s[1..])
    else Some((s[0], s[1..]))
  }

  // The characters up to the closing quote.
  function ReadChars(s: string): (r: Read<string>)
    ensures r.Some? ==> |r.value.1| < |s|
    decreases |s|
  {
    if s != "" && s[0] == '"' then Some(("", s[1..]))
    else
      match ReadChar(s)
      case None => None
      case Some((c, rest)) =>
        match ReadChars(rest)
        case None => None
        case Some((cs, rest')) => Some(([c] + cs, rest'))
  }

  // ---------------------------------------------------------------------- values

  predicate StartsWith(s: string, c: char) {
    s != "" && s[0] == c
  }

  function ReadLiteral(s: string, word: string, v: Json): (r: Read<Json>)
    requires word != ""
    ensures r.Some? ==> |r.value.1| < |s|
  {
    if word <= s then Some((v, s[|word|..])) else None
  }

  function ReadValue(s: string): (r: Read<Json>)
    ensures r.Some? ==> |r.value.1| < |s|
    decreases |s|, 0
  {
    var t := SkipSpace(s);
    if t == "" then None
    else if t[0] == 'n' then ReadLiteral(t, "null", JNull)
    else if t[0] == 't' then ReadLiteral(t, "true", JBool(true))
    else if t[0] == 'f' then ReadLiteral(t, "false", JBool(false))
    else if t[0] == '"' then
      match ReadChars(t[1..])
      case None => None
      case Some((cs, rest)) => Some((JStr(cs), rest))
    else if t[0] == '[' then
      var u := SkipSpace(t[1..]);
      if StartsWith(u, ']') then Some((JArr([]), u[1..]))
      else
        match ReadElements(u)
        case None => None
        case Some((items, rest)) => Some((JArr(items), rest))
    else if t[0] == '{' then
      var u := SkipSpace(t[1..]);
      if StartsWith(u, '}') then Some((JObj([]), u[1..]))
      else
        match ReadMembers(u)
        case None => None
        case Some((fields, rest)) => Some((JObj(fields), rest))
    else ReadNumber(t)
  }

  // The elements of an array from the first one on, and the closing bracket.
  function ReadElements(s: string): (r: Read<seq<Json>>)
    ensures r.Some? ==> |r.value.1| < |s|
    decreases |s|, 1
  {
    match ReadValue(s)
    case None => None
    case Some((v, rest)) =>
      var t := SkipSpace(rest);
      if StartsWith(t, ']') then Some(([v], t[1..]))
      else if StartsWith(t, ',') then
        match ReadElements(t[1..])
        case None => None
        case Some((vs, rest')) => Some(([v] + vs, rest'))
      else None
  }

  function ReadMember(s: string): (r: Read<Field>)
    ensures r.Some? ==> |r.value.1| < |s|
    decreases |s|, 1
  {
    var t := SkipSpace(s);
    if !StartsWith(t, '"') then None
    else
      match ReadChars(t[1..])
      case None => None
      case Some((key, rest)) =>
        var u := SkipSpace(rest);
        if !StartsWith(u, ':') then None
        else
          match ReadValue(u[1..])
          case None => None
          case Some((v, rest')) => Some((Field(key, v), rest'))
  }

  // The members of an object from the first one on, and the closing brace.
  function ReadMembers(s: string): (r: Read<seq<Field>>)
    ensures r.Some? ==> |r.value.1| < |s|
    decreases |s|, 2
  {
    match ReadMember(s)
    case None => None
    case Some((f, rest)) =>
      var t := SkipSpace(rest);
      if StartsWith(t, '}') then Some(([f], t[1..]))
      else if StartsWith(t, ',') then
        match ReadMembers(t[1..])
        case None => None
        case Some((fs, rest')) => Some(([f] + fs, rest'))
      else None
  }

  // A whole JSON text.
  function ReadText(s: string): Option<Json> {
    match ReadValue(s)
    case None => None
    case Some((v, rest)) => if SkipSpace(rest) == "" then Some(v) else None
  }

  // ----------------------------------------------------------------- reading back

  lemma {:induction false} DigitsThen(t: string, x: string)
    requires Delimited(x)
    ensures AfterDigits(t + x) == AfterDigits(t) + x
  {
    if t == "" {
      assert t + x == x;
    } else if IsDigit(t[0]) {
      assert (t + x)[1..] == t[1..] + x;
      DigitsThen(t[1..], x);
    }
  }

  lemma SomeDigitsThen(t: string, x: string)
    requires Delimited(x) && AfterSomeDigits(t).Some?
    ensures AfterSomeDigits(t + x) == Some(AfterSomeDigits(t).value + x)
  {
    DigitsThen(t, x);
  }

  lemma IntThen(t: string, x: string)
    requires Delimited(x) && AfterInt(t).Some?
    ensures AfterInt(t + x) == Some(AfterInt(t).value + x)
  {
    if t[0] == '0' {
      assert (t + x)[1..] == t[1..] + x;
    } else {
      SomeDigitsThen(t, x);
    }
  }

  lemma FracThen(t: string, x: string)
    requires Delimited(x) && AfterFrac(t).Some?
    ensures AfterFrac(t + x) == Some(AfterFrac(t).value + x)
  {
    if t == "" {
      assert t + x == x;
    } else if t[0] == '.' {
      assert (t + x)[1..] == t[1..] + x;
      SomeDigitsThen(t[1..], x);
    }
  }

  lemma ExpThen(t: string, x: string)
    requires Delimited(x) && AfterExp(t).Some?
    ensures AfterExp(t + x) == Some(AfterExp(t).value + x)
  {
    if t == "" {
      assert t + x == x;
    } else if t[0] == 'e' || t[0] == 'E' {
      assert (t + x)[1..] == t[1..] + x;
      assert t[1..] != "";
      assert AfterSign(t[1..] + x) == AfterSign(t[1..]) + x;
      SomeDigitsThen(AfterSign(t[1..]), x);
    }
  }

  lemma NumberThen(t: string, x: string)
    requires Delimited(x) && IsJsonNumber(t)
    ensures AfterNumber(t + x) == Some(x) && ReadNumber(t + x) == Some((JNum(t), x))
  {
    assert t != "";
    assert AfterMinus(t + x) == AfterMinus(t) + x;
    IntThen(AfterMinus(t), x);
    var u := AfterInt(AfterMinus(t)).value;
    FracThen(u, x);
    ExpThen(AfterFrac(u).value, x);
    assert "" + x == x;
    assert (t + x)[..|t|] == t;
  }

  lemma HexDigitRead(n: nat)
    requires n < 16
    ensures HexValue(HexDigit(n)) == Some(n)
  {
  }

  lemma CharThen(c: char, x: string)
    ensures ReadChar(EscapeChar(c) + x) == Some((c, x))
  {
    var s := EscapeChar(c) + x;
    EscapeCharShape(c);
    if |EscapeChar(c)| == 1 {
      assert s[1..] == x;
    } else if |EscapeChar(c)| == 2 {
      assert s[1..][1..] == x && s[1..][0] == EscapeChar(c)[1];
    } else {
      UnicodeThen(c, x);
    }
  }

  lemma UnicodeThen(c: char, x: string)
    requires c as int < 32
    ensures ReadChar("\\u00" + [HexDigit(c as int / 16), HexDigit(c as int % 16)] + x) == Some((c, x))
  {
    var s := "\\u00" + [HexDigit(c as int / 16), HexDigit(c as int % 16)] + x;
    var t := s[1..][1..];
    assert s[0] == '\\' && s[1..][0] == 'u';
    assert t == "00" + [HexDigit(c as int / 16), HexDigit(c as int % 16)] + x;
    HexDigitRead(c as int / 16);
    HexDigitRead(c as int % 16);
    assert t[4..] == x;
    assert HexCode(t) == Some(c as int);
  }

  lemma {:induction false} CharsThen(s: string, x: string)
    ensures ReadChars(WriteChars(s, x)) == Some((s, x))
    decreases |s|
  {
    CharsStart(s, x);
    if s == "" {
      assert ("\"" + x)[1..] == x;
    } else {
      CharThen(s[0], WriteChars(s[1..], x));
      CharsThen(s[1..], x);
      assert s == [s[0]] + s[1..];
    }
  }

  lemma NoSpace(s: string)
    requires s == "" || !IsSpace(s[0])
    ensures SkipSpace(s) == s
  {
  }

  // The numbers of a value are JSON numbers.
  predicate NumbersValid(v: Json) {
    NumbersAre(v, IsJsonNumber)
  }

  lemma NumberStart(t: string)
    requires IsJsonNumber(t)
    ensures t != "" && (IsDigit(t[0]) || t[0] == '-')
  {
  }

  // The first character of a printed value is not a space and does not close anything.
  lemma StartOf(v: Json, x: string)
    requires NumbersValid(v)
    ensures var s := Write(v, x); s != "" && !IsSpace(s[0]) && s[0] != ']' && s[0] != '}' && s[0] != ','
  {
    match v
    case JNum(t) => NumberStart(t);
    case _ =>
  }

  // Reading a printed value gives the value and leaves what follows it.
  lemma {:induction false} ReadsBack(v: Json, x: string)
    requires NumbersValid(v) && Delimited(x)
    ensures ReadValue(Write(v, x)) == Some((v, x))
    decreases v
  {
    var s := Write(v, x);
    StartOf(v, x);
    NoSpace(s);
    match v
    case JNull => assert ("null" + x)[4..] == x;
    case JBool(b) =>
      if b {
        assert ("true" + x)[4..] == x;
      } else {
        assert ("false" + x)[5..] == x;
      }
    case JNum(t) =>
      NumberStart(t);
      NumberThen(t, x);
    case JStr(cs) =>
      assert s[1..] == WriteChars(cs, x);
      CharsThen(cs, x);
    case JArr(items) => ArrayReadsBack(items, x);
    case JObj(fields) => ObjectReadsBack(fields, x);
  }

  lemma {:induction false} ArrayReadsBack(items: seq<Json>, x: string)
    requires NumbersValid(JArr(items)) && Delimited(x)
    ensures ReadValue(Write(JArr(items), x)) == Some((JArr(items), x))
    decreases items
  {
    hide ReadChars, ReadNumber, ReadLiteral, IsJsonNumber, JsonText.WriteChars;
    var s := Write(JArr(items), x);
    NoSpace(s);
    assert s[1..] == WriteItems(items, 0, x);
    if items == [] {
      NoSpace(s[1..]);
      assert s[1..][1..] == x;
    } else {
      StartOf(items[0], WriteItems(items, 1, x));
      NoSpace(s[1..]);
      ElementsReadBack(items, 0, x);
      assert items[0..] == items;
    }
  }

  lemma {:induction false} ObjectReadsBack(fields: seq<Field>, x: string)
    requires NumbersValid(JObj(fields)) && Delimited(x)
    ensures ReadValue(Write(JObj(fields), x)) == Some((JObj(fields), x))
    decreases fields
  {
    hide ReadChars, ReadNumber, ReadLiteral, IsJsonNumber, JsonText.WriteChars;
    var s := Write(JObj(fields), x);
    NoSpace(s);
    assert s[1..] == WriteFields(fields, 0, x);
    if fields == [] {
      NoSpace(s[1..]);
      assert s[1..][1..] == x;
    } else {
      assert s[1..] == WriteField(fields[0], WriteFields(fields, 1, x));
      NoSpace(s[1..]);
      MembersReadBack(fields, 0, x);
      assert fields[0..] == fields;
    }
  }

  lemma {:induction false} ElementsReadBack(items: seq<Json>, i: nat, x: string)
    requires i < |items| && forall k :: 0 <= k < |items| ==> NumbersValid(items[k])
    ensures ReadElements(Write(items[i], WriteItems(items, i + 1, x))) == Some((items[i..], x))
    decreases items, |items| - i
  {
    hide ReadChars, ReadNumber, ReadLiteral, IsJsonNumber, JsonText.WriteChars;
    var y := WriteItems(items, i + 1, x);
    assert y != "" && Delimited(y) && !IsSpace(y[0]);
    ReadsBack(items[i], y);
    NoSpace(y);
    if i + 1 == |items| {
      assert y[1..] == x && items[i..] == [items[i]];
    } else {
      assert y[1..] == Write(items[i + 1], WriteItems(items, i + 2, x));
      ElementsReadBack(items, i + 1, x);
      assert items[i..] == [items[i]] + items[i + 1..];
    }
  }

  lemma {:induction false} MemberReadsBack(f: Field, x: string)
    requires NumbersValid(f.value) && Delimited(x)
    ensures ReadMember(WriteField(f, x)) == Some((f, x))
    decreases f, 2
  {
    hide ReadNumber, ReadLiteral, IsJsonNumber;
    var s, tail := WriteField(f, x), ":" + Write(f.value, x);
    NoSpace(s);
    assert s[1..] == WriteChars(f.key, tail);
    CharsThen(f.key, tail);
    NoSpace(tail);
    assert tail[1..] == Write(f.value, x);
    ReadsBack(f.value, x);
  }

  lemma {:induction false} MembersReadBack(fields: seq<Field>, i: nat, x: string)
    requires i < |fields| && forall k :: 0 <= k < |fields| ==> NumbersValid(fields[k].value)
    ensures ReadMembers(WriteField(fields[i], WriteFields(fields, i + 1, x))) == Some((fields[i..], x))
    decreases fields, |fields| - i
  {
    hide ReadChars, ReadNumber, ReadLiteral, IsJsonNumber, JsonText.WriteChars;
    var y := WriteFields(fields, i + 1, x);
    assert y != "" && Delimited(y) && !IsSpace(y[0]);
    MemberReadsBack(fields[i], y);
    NoSpace(y);
    if i + 1 == |fields| {
      assert y[1..] == x && fields[i..] == [fields[i]];
    } else {
      assert y[1..] == WriteField(fields[i + 1], WriteFields(fields, i + 2, x));
      MembersReadBack(fields, i + 1, x);
      assert fields[i..] == [fields[i]] + fields[i + 1..];
    }
  }

  // A JSON reader gets back every value JSON.stringify prints.
  lemma StringifyReadsBack(v: Json)
    requires NumbersValid(v)
    ensures ReadText(Stringify(v)) == Some(v)
  {
    ReadsBack(v, "");
  }
}
