/**
 * The predicate language the compiler prints: a lexer over characters and a
 * precedence parser (OR below AND below NOT below the predicates), following
 * sections 4.1, 9.1, 9.2 and 9.24 of the PostgreSQL documentation.
 */
module SqlSyntax {
  import opened Basics
  import opened Text

  datatype CompareOp = CmpEq | CmpNeq | CmpGt | CmpGte | CmpLt | CmpLte

  datatype Token =
    | Name(text: string)      // "quoted identifier"
    | Placeholder(n: nat)     // $n
    | Number(n: nat)
    | Compare(op: CompareOp)
    | LParen | RParen | Comma | Dot
    | KwAnd | KwOr | KwNot | KwIn | KwBetween | KwILike | KwIs | KwNull
    | KwExists | KwSelect | KwFrom | KwWhere | KwTrue | KwFalse

  datatype Operand = Column(table: string, column: string) | Param(n: nat)

  datatype Expr =
    | Const(value: bool)
    | Not(e: Expr)
    | And(left: Expr, right: Expr)
    | Or(left: Expr, right: Expr)
    | Comparison(op: CompareOp, x: Operand, y: Operand)
    | In(x: Operand, options: List<Operand>)
    | Between(x: Operand, low: Operand, high: Operand)
    | ILikes(x: Operand, y: Operand)
    | IsNull(x: Operand)
    | Exists(table: string, filter: Expr)

  // ------------------------------------------------------------------ lexer

  datatype CharClass = Digits | WordChars | OpChars

  predicate InClass(c: char, k: CharClass) {
    match k
    case Digits => IsDigit(c)
    case WordChars => 'a' <= c <= 'z' || 'A' <= c <= 'Z' || c == '_' || IsDigit(c)
    case OpChars => c == '=' || c == '<' || c == '>' || c == '!'
  }

  // Length of the longest prefix of s in class k.
  function Run(s: string, k: CharClass): (n: nat)
    ensures n <= |s|
    ensures forall i :: 0 <= i < n ==> InClass(s[i], k)
    ensures n < |s| ==> !InClass(s[n], k)
  {
    if s == "" || !InClass(s[0], k) then 0 else 1 + Run(s[1..], k)
  }

  // Length of the longest prefix of s without a double quote.
  function Unquoted(s: string): (n: nat)
    ensures n <= |s|
    ensures forall i :: 0 <= i < n ==> s[i] != '"'
    ensures n < |s| ==> s[n] == '"'
  {
    if s == "" || s[0] == '"' then 0 else 1 + Unquoted(s[1..])
  }

  function WordToken(w: string): Option<Token> {
    if w == "AND" then Some(KwAnd)
    else if w == "OR" then Some(KwOr)
    else if w == "NOT" then Some(KwNot)
    else if w == "IN" then Some(KwIn)
    else if w == "BETWEEN" then Some(KwBetween)
    else if w == "ILIKE" then Some(KwILike)
    else if w == "IS" then Some(KwIs)
    else if w == "NULL" then Some(KwNull)
    else if w == "EXISTS" then Some(KwExists)
    else if w == "SELECT" then Some(KwSelect)
    else if w == "FROM" then Some(KwFrom)
    else if w == "WHERE" then Some(KwWhere)
    else if w == "TRUE" then Some(KwTrue)
    else if w == "FALSE" then Some(KwFalse)
    else None
  }

  function OpToken(w: string): Option<Token> {
    if w == "=" then Some(Compare(CmpEq))
    else if w == "!=" then Some(Compare(CmpNeq))
    else if w == ">" then Some(Compare(CmpGt))
    else if w == ">=" then Some(Compare(CmpGte))
    else if w == "<" then Some(Compare(CmpLt))
    else if w == "<=" then Some(Compare(CmpLte))
    else None
  }

  // The token at the start of s and its length; None where no token starts.
  function LexOne(s: string): (r: Option<(Option<Token>, nat)>)
    requires s != ""
    ensures r.Some? ==> 1 <= r.value.1 <= |s|
  {
    var c := s[0];
    if c == '(' then Some((Some(LParen), 1))
    else if c == ')' then Some((Some(RParen), 1))
    else if c == ',' then Some((Some(Comma), 1))
    else if c == '.' then Some((Some(Dot), 1))
    else if c == ' ' then Some((None, 1))
    else if c == '"' then LexName(s)
    else if c == '$' then LexPlaceholder(s)
    else if InClass(c, Digits) then
      var n := Run(s, Digits);
      Some((Some(Number(NatValue(s[..n]))), n))
    else if InClass(c, WordChars) then LexRun(s, WordChars)
    else if InClass(c, OpChars) then LexRun(s, OpChars)
    else None
  }

  function LexName(s: string): (r: Option<(Option<Token>, nat)>)
    requires s != "" && s[0] == '"'
    ensures r.Some? ==> 1 <= r.value.1 <= |s|
  {
    var n := Unquoted(s[1..]);
    if 1 + n < |s| then Some((Some(Name(s[1..1 + n])), n + 2)) else None
  }

  function LexPlaceholder(s: string): (r: Option<(Option<Token>, nat)>)
    requires s != "" && s[0] == '$'
    ensures r.Some? ==> 1 <= r.value.1 <= |s|
  {
    var n := Run(s[1..], Digits);
    if n == 0 then None else Some((Some(Placeholder(NatValue(s[1..][..n]))), 1 + n))
  }

  // A keyword or an operator: the longest run of its class must be one.
  function LexRun(s: string, k: CharClass): (r: Option<(Option<Token>, nat)>)
    requires s != "" && InClass(s[0], k)
    ensures r.Some? ==> 1 <= r.value.1 <= |s|
  {
    var n := Run(s, k);
    var t := if k == WordChars then WordToken(s[..n]) else OpToken(s[..n]);
    if t.None? then None else Some((t, n))
  }

  function Lex(s: string): Option<List<Token>>
    decreases |s|
  {
    if s == "" then Some(Nil)
    else
      match LexOne(s)
      case None => None
      case Some((t, n)) =>
        match Lex(s[n..])
        case None => None
        case Some(rest) => if t.Some? then Some(Cons(t.value, rest)) else Some(rest)
  }

  // ----------------------------------------------------------------- parser

  type Parse<T> = Option<(T, List<Token>)>

  function ParseOperand(ts: List<Token>): (r: Parse<Operand>)
    ensures r.Some? ==> r.value.1 < ts
  {
    match ts
    case Cons(Placeholder(n), rest) => Some((Param(n), rest))
    case Cons(Name(t), Cons(Dot, Cons(Name(c), rest))) => Some((Column(t, c), rest))
    case _ => None
  }

  // operand { , operand } )
  function ParseOperands(ts: List<Token>): (r: Parse<List<Operand>>)
    ensures r.Some? ==> r.value.1 < ts
    decreases ts
  {
    match ParseOperand(ts)
    case Some((x, Cons(RParen, rest))) => Some((Cons(x, Nil), rest))
    case Some((x, Cons(Comma, rest))) =>
      (match ParseOperands(rest)
       case Some((xs, rest')) => Some((Cons(x, xs), rest'))
       case None => None)
    case _ => None
  }

  // What may follow an operand.
  function ParsePredicate(x: Operand, ts: List<Token>): (r: Parse<Expr>)
    ensures r.Some? ==> r.value.1 < ts
  {
    match ts
    case Cons(Compare(op), rest) =>
      (match ParseOperand(rest)
       case Some((y, rest')) => Some((Comparison(op, x, y), rest'))
       case None => None)
    case Cons(KwIs, Cons(KwNull, rest)) => Some((IsNull(x), rest))
    case Cons(KwIs, Cons(KwNot, Cons(KwNull, rest))) => Some((Not(IsNull(x)), rest))
    case Cons(KwIn, Cons(LParen, rest)) =>
      (match ParseOperands(rest)
       case Some((xs, rest')) => Some((In(x, xs), rest'))
       case None => None)
    case Cons(KwNot, Cons(KwIn, Cons(LParen, rest))) =>
      (match ParseOperands(rest)
       case Some((xs, rest')) => Some((Not(In(x, xs)), rest'))
       case None => None)
    case Cons(KwBetween, rest) =>
      (match ParseOperand(rest)
       case Some((low, Cons(KwAnd, rest'))) =>
         (match ParseOperand(rest')
          case Some((high, rest'')) => Some((Between(x, low, high), rest''))
          case None => None)
       case _ => None)
    case Cons(KwILike, rest) =>
      (match ParseOperand(rest)
       case Some((y, rest')) => Some((ILikes(x, y), rest'))
       case None => None)
    case _ => None
  }

  // (SELECT <number> FROM <table> WHERE
  function ExistsHeader(ts: List<Token>): (r: Parse<string>)
    ensures r.Some? ==> r.value.1 < ts
  {
    match ts
    case Cons(LParen, Cons(KwSelect, Cons(Number(_), Cons(KwFrom, Cons(Name(t), Cons(KwWhere, rest)))))) =>
      Some((t, rest))
    case _ => None
  }

  function ParsePrimary(ts: List<Token>): (r: Parse<Expr>)
    ensures r.Some? ==> r.value.1 < ts
    decreases ts, 0
  {
    match ts
    case Cons(KwTrue, rest) => Some((Const(true), rest))
    case Cons(KwFalse, rest) => Some((Const(false), rest))
    case Cons(LParen, rest) =>
      (match ParseOr(rest)
       case Some((e, Cons(RParen, rest'))) => Some((e, rest'))
       case _ => None)
    case Cons(KwExists, rest) =>
      (match ExistsHeader(rest)
       case Some((t, rest')) =>
         (match ParseOr(rest')
          case Some((e, Cons(RParen, rest''))) => Some((Exists(t, e), rest''))
          case _ => None)
       case None => None)
    case _ =>
      match ParseOperand(ts)
      case Some((x, rest)) => ParsePredicate(x, rest)
      case None => None
  }

  function ParseNot(ts: List<Token>): (r: Parse<Expr>)
    ensures r.Some? ==> r.value.1 < ts
    decreases ts, 1
  {
    match ts
    case Cons(KwNot, rest) =>
      (match ParseNot(rest)
       case Some((e, rest')) => Some((Not(e), rest'))
       case None => None)
    case _ => ParsePrimary(ts)
  }

  function ParseAnd(ts: List<Token>): (r: Parse<Expr>)
    ensures r.Some? ==> r.value.1 < ts
    decreases ts, 2
  {
    match ParseNot(ts)
    case Some((e, rest)) => AndTail(e, rest)
    case None => None
  }

  function AndTail(acc: Expr, ts: List<Token>): (r: Parse<Expr>)
    ensures r.Some? ==> r.value.1 == ts || r.value.1 < ts
    decreases ts, 2
  {
    match ts
    case Cons(KwAnd, rest) =>
      (match ParseNot(rest)
       case Some((e, rest')) => AndTail(And(acc, e), rest')
       case None => None)
    case _ => Some((acc, ts))
  }

  function ParseOr(ts: List<Token>): (r: Parse<Expr>)
    ensures r.Some? ==> r.value.1 < ts
    decreases ts, 3
  {
    match ParseAnd(ts)
    case Some((e, rest)) => OrTail(e, rest)
    case None => None
  }

  function OrTail(acc: Expr, ts: List<Token>): (r: Parse<Expr>)
    ensures r.Some? ==> r.value.1 == ts || r.value.1 < ts
    decreases ts, 3
  {
    match ts
    case Cons(KwOr, rest) =>
      (match ParseAnd(rest)
       case Some((e, rest')) => OrTail(Or(acc, e), rest')
       case None => None)
    case _ => Some((acc, ts))
  }

  // The whole text must be one expression.
  function ParseSql(s: string): Option<Expr> {
    match Lex(s)
    case None => None
    case Some(ts) =>
      match ParseOr(ts)
      case Some((e, Nil)) => Some(e)
      case _ => None
  }

  // The placeholder numbers of a token stream, in order.
  function Placeholders(ts: List<Token>): seq<nat> {
    match ts
    case Nil => []
    case Cons(Placeholder(n), rest) => [n] + Placeholders(rest)
    case Cons(_, rest) => Placeholders(rest)
  }

  // ------------------------------------------------------- lexing in pieces

  // A character that could run on into the next piece of text.
  predicate Sticky(c: char) {
    InClass(c, WordChars) || InClass(c, OpChars) || c == '$' || c == '"'
  }

  predicate SafeJoin(a: string, b: string) {
    a == "" || b == "" || !Sticky(a[|a| - 1]) || !Sticky(b[0])
  }

  lemma {:induction false} RunOfConcat(a: string, b: string, k: CharClass)
    requires Run(a, k) < |a| || b == "" || !InClass(b[0], k)
    ensures Run(a + b, k) == Run(a, k)
  {
    if a == "" {
      assert a + b == b;
    } else {
      assert (a + b)[0] == a[0] && (a + b)[1..] == a[1..] + b;
      if InClass(a[0], k) {
        RunOfConcat(a[1..], b, k);
      }
    }
  }

  lemma {:induction false} UnquotedOfConcat(a: string, b: string)
    requires Unquoted(a) < |a|
    ensures Unquoted(a + b) == Unquoted(a)
  {
    assert (a + b)[0] == a[0] && (a + b)[1..] == a[1..] + b;
    if a[0] != '"' {
      UnquotedOfConcat(a[1..], b);
    }
  }

  lemma LexNameOfConcat(a: string, b: string)
    requires a != "" && a[0] == '"' && LexName(a).Some?
    ensures (a + b)[0] == '"' && LexName(a + b) == LexName(a)
  {
    assert (a + b)[1..] == a[1..] + b;
    UnquotedOfConcat(a[1..], b);
    var n := Unquoted(a[1..]);
    assert (a + b)[1..1 + n] == a[1..1 + n];
  }

  lemma LexPlaceholderOfConcat(a: string, b: string)
    requires a != "" && a[0] == '$' && LexPlaceholder(a).Some? && SafeJoin(a, b)
    ensures (a + b)[0] == '$' && LexPlaceholder(a + b) == LexPlaceholder(a)
  {
    assert (a + b)[1..] == a[1..] + b;
    var n := Run(a[1..], Digits);
    if n == |a[1..]| {
      assert a[|a| - 1] == a[1..][n - 1];
    }
    RunOfConcat(a[1..], b, Digits);
    assert (a[1..] + b)[..n] == a[1..][..n];
  }

  lemma RunOfSafeConcat(a: string, b: string, k: CharClass)
    requires a != "" && InClass(a[0], k) && SafeJoin(a, b)
    ensures Run(a + b, k) == Run(a, k) && (a + b)[..Run(a, k)] == a[..Run(a, k)]
  {
    var n := Run(a, k);
    if n == |a| {
      assert InClass(a[n - 1], k);
    }
    RunOfConcat(a, b, k);
  }

  lemma LexRunOfConcat(a: string, b: string, k: CharClass)
    requires a != "" && InClass(a[0], k) && SafeJoin(a, b)
    ensures LexRun(a + b, k) == LexRun(a, k)
  {
    hide WordToken, OpToken;
    RunOfSafeConcat(a, b, k);
    var n := Run(a, k);
    var word, word' := a[..n], (a + b)[..n];
    assert word == word';
    assert WordToken(word) == WordToken(word');
  }

  lemma LexOneOfConcat(a: string, b: string)
    requires a != "" && LexOne(a).Some? && SafeJoin(a, b)
    ensures LexOne(a + b) == LexOne(a)
  {
    hide WordToken, OpToken;
    var c := a[0];
    assert (a + b)[0] == c;
    if c == '"' {
      LexNameOfConcat(a, b);
    } else if c == '$' {
      LexPlaceholderOfConcat(a, b);
    } else if InClass(c, Digits) || InClass(c, WordChars) || InClass(c, OpChars) {
      LexRunsOfConcat(a, b);
    }
  }

  lemma LexRunsOfConcat(a: string, b: string)
    requires a != "" && SafeJoin(a, b) && (InClass(a[0], Digits) || InClass(a[0], WordChars) || InClass(a[0], OpChars))
    ensures LexOne(a + b) == LexOne(a)
  {
    hide WordToken, OpToken;
    var c := a[0];
    assert (a + b)[0] == c;
    if InClass(c, Digits) {
      RunOfSafeConcat(a, b, Digits);
    } else if InClass(c, WordChars) {
      LexRunOfConcat(a, b, WordChars);
    } else {
      LexRunOfConcat(a, b, OpChars);
    }
  }

  // Two pieces of text that cannot run into each other are lexed separately.
  lemma {:induction false} LexConcat(a: string, ta: List<Token>, b: string, tb: List<Token>)
    requires Lex(a) == Some(ta) && Lex(b) == Some(tb) && SafeJoin(a, b)
    ensures Lex(a + b) == Some(Append(ta, tb))
    decreases |a|
  {
    hide LexOne;
    if a == "" {
      assert a + b == b;
    } else {
      LexOneOfConcat(a, b);
      var (t, n) := LexOne(a).value;
      assert (a + b)[n..] == a[n..] + b;
      LexConcat(a[n..], Lex(a[n..]).value, b, tb);
    }
  }

  // --------------------------------------------------------------- spelling

  predicate PlainName(s: string) {
    forall i :: 0 <= i < |s| ==> s[i] != '"'
  }

  function CompareText(op: CompareOp): string {
    match op
    case CmpEq => "="
    case CmpNeq => "!="
    case CmpGt => ">"
    case CmpGte => ">="
    case CmpLt => "<"
    case CmpLte => "<="
  }

  predicate IsKeyword(t: Token) {
    !t.Name? && !t.Placeholder? && !t.Number? && !t.Compare? && !IsPunctuation(t)
  }

  predicate IsPunctuation(t: Token) {
    t == LParen || t == RParen || t == Comma || t == Dot
  }

  function KeywordText(t: Token): string
    requires IsKeyword(t)
  {
    match t
    case KwAnd => "AND"
    case KwOr => "OR"
    case KwNot => "NOT"
    case KwIn => "IN"
    case KwBetween => "BETWEEN"
    case KwILike => "ILIKE"
    case KwIs => "IS"
    case KwNull => "NULL"
    case KwExists => "EXISTS"
    case KwSelect => "SELECT"
    case KwFrom => "FROM"
    case KwWhere => "WHERE"
    case KwTrue => "TRUE"
    case KwFalse => "FALSE"
  }

  function TokenText(t: Token): string {
    match t
    case Name(x) => "\"" + x + "\""
    case Placeholder(n) => "$" + NatText(n)
    case Number(n) => NatText(n)
    case Compare(op) => CompareText(op)
    case LParen => "("
    case RParen => ")"
    case Comma => ","
    case Dot => "."
    case _ => KeywordText(t)
  }

  predicate Spellable(t: Token) {
    t.Name? ==> PlainName(t.text)
  }

  lemma LexRunAlone(w: string, t: Token, k: CharClass)
    requires k == WordChars || k == OpChars
    requires w != "" && !IsDigit(w[0]) && forall i :: 0 <= i < |w| ==> InClass(w[i], k)
    requires (if k == WordChars then WordToken(w) else OpToken(w)) == Some(t)
    ensures Lex(w) == Some(Cons(t, Nil))
  {
    hide WordToken, OpToken;
    assert Run(w, k) == |w| && w[..|w|] == w && w[|w|..] == "";
    assert LexRun(w, k) == Some((Some(t), |w|));
    assert LexOne(w) == LexRun(w, k);
  }

  lemma {:induction false} UnquotedOfName(x: string)
    requires PlainName(x)
    ensures Unquoted(x + "\"") == |x|
  {
    if x != "" {
      assert (x + "\"")[1..] == x[1..] + "\"";
      UnquotedOfName(x[1..]);
    }
  }

  lemma KeywordTextIsWord(t: Token)
    requires IsKeyword(t)
    ensures |KeywordText(t)| >= 2 && WordToken(KeywordText(t)) == Some(t)
    ensures forall i :: 0 <= i < |KeywordText(t)| ==> 'A' <= KeywordText(t)[i] <= 'Z'
  {
  }

  lemma CompareTextIsOp(op: CompareOp)
    ensures CompareText(op) != "" && OpToken(CompareText(op)) == Some(Compare(op))
    ensures forall i :: 0 <= i < |CompareText(op)| ==> InClass(CompareText(op)[i], OpChars)
  {
  }

  lemma LexNameText(x: string)
    requires PlainName(x)
    ensures Lex("\"" + x + "\"") == Some(Cons(Name(x), Nil))
  {
    var w := "\"" + x + "\"";
    assert w[1..] == x + "\"";
    UnquotedOfName(x);
    assert w[1..1 + |x|] == x && w[|x| + 2..] == "";
    assert LexOne(w) == LexName(w);
  }

  lemma LexPlaceholderText(n: nat)
    ensures Lex("$" + NatText(n)) == Some(Cons(Placeholder(n), Nil))
  {
    var w, d := "$" + NatText(n), NatText(n);
    assert w[1..] == d && d[..|d|] == d && w[|w|..] == "";
    assert Run(d, Digits) == |d|;
    NatTextRoundTrip(n);
    assert LexPlaceholder(w) == Some((Some(Placeholder(n)), |w|));
    assert LexOne(w) == LexPlaceholder(w);
  }

  lemma LexNumberText(n: nat)
    ensures Lex(NatText(n)) == Some(Cons(Number(n), Nil))
  {
    var w := NatText(n);
    assert Run(w, Digits) == |w| && w[..|w|] == w && w[|w|..] == "";
    NatTextRoundTrip(n);
    assert LexOne(w) == Some((Some(Number(n)), |w|));
  }

  lemma LexPunctuationText(t: Token)
    requires IsPunctuation(t)
    ensures Lex(TokenText(t)) == Some(Cons(t, Nil))
  {
    assert LexOne(TokenText(t)) == Some((Some(t), 1));
    assert TokenText(t)[1..] == "";
  }

  lemma LexTokenText(t: Token)
    requires Spellable(t)
    ensures Lex(TokenText(t)) == Some(Cons(t, Nil))
  {
    if t.Name? {
      LexNameText(t.text);
    } else if t.Placeholder? {
      LexPlaceholderText(t.n);
    } else if t.Number? {
      LexNumberText(t.n);
    } else if t.Compare? {
      CompareTextIsOp(t.op);
      LexRunAlone(CompareText(t.op), t, OpChars);
    } else if IsPunctuation(t) {
      LexPunctuationText(t);
    } else {
      KeywordTextIsWord(t);
      LexRunAlone(KeywordText(t), t, WordChars);
    }
  }

  // Text that cannot run on from a word, number or quoted name before it.
  predicate Clean(rest: string) {
    rest == "" || !Sticky(rest[0])
  }

  // A relation between texts and token streams, and the laws of spelling it
  // obeys. Proofs about printed text use only these laws.
  type Reader = (string, List<Token>) -> bool

  predicate At(rest: string, ts: List<Token>) {
    true
  }

  ghost predicate ObeysSpelling(reader: Reader) {
    && reader("", Nil)
    && (forall rest, ts {:trigger At(rest, ts)} :: At(rest, ts) && reader(rest, ts) ==> reader(" " + rest, ts))
    && (forall t, rest, ts {:trigger At(rest, ts), Spellable(t)} ::
          At(rest, ts) && reader(rest, ts) && Spellable(t) && (IsPunctuation(t) || Clean(rest)) ==>
          reader(TokenText(t) + rest, Cons(t, ts)))
  }

  lemma ReadsGap(reader: Reader, rest: string, ts: List<Token>)
    requires ObeysSpelling(reader) && reader(rest, ts)
    ensures reader(" " + rest, ts)
  {
    assert At(rest, ts);
  }

  lemma ReadsToken(reader: Reader, t: Token, rest: string, ts: List<Token>)
    requires ObeysSpelling(reader) && reader(rest, ts) && Spellable(t) && (IsPunctuation(t) || Clean(rest))
    ensures reader(TokenText(t) + rest, Cons(t, ts))
  {
    assert At(rest, ts);
  }

  function LexerReads(): Reader {
    (s, ts) => Lex(s) == Some(ts)
  }

  lemma LexerObeysSpelling()
    ensures ObeysSpelling(LexerReads())
  {
    forall rest, ts | Lex(rest) == Some(ts)
      ensures Lex(" " + rest) == Some(ts)
    {
      assert (" " + rest)[1..] == rest;
    }
    forall t, rest, ts | Lex(rest) == Some(ts) && Spellable(t) && (IsPunctuation(t) || Clean(rest))
      ensures Lex(TokenText(t) + rest) == Some(Cons(t, ts))
    {
      LexTokenText(t);
      LexConcat(TokenText(t), Cons(t, Nil), rest, ts);
    }
  }
}
