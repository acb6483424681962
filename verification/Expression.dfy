// The expressions of source/bforce/expression.tab.c: the LALR tables and the machine that
// runs on them, the actions, and a recursive reading of the same language.
module Expression {
  import opened Wrappers

  const NTOKENS := 35
  const LAST := 43
  const FINAL := 35
  const NINF := -33

  // yypact: where the state's row starts in yytable; -33 for states that only reduce
  function YyPact(state: int): int {
    match state
    case 0 => -4
    case 6 => -32
    case 7 => 15
    case 8 => 17
    case 9 => 18
    case 10 => 19
    case 11 => -9
    case 12 => 22
    case 13 => -5
    case 14 => 25
    case 15 => 26
    case 16 => -4
    case 17 => -4
    case 18 => 31
    case 19 => -2
    case 21 => 28
    case 26 => 29
    case 27 => 32
    case 29 => 33
    case 31 => 34
    case 33 => -2
    case 34 => -14
    case 36 => -4
    case 39 => 22
    case 41 => 26
    case 43 => -2
    case _ => -33
  }

  // yydefact: the rule to reduce by when yytable says nothing; 0 is an error
  function YyDefact(state: int): int {
    match state
    case 1 => 21
    case 2 => 7
    case 3 => 8
    case 4 => 9
    case 5 => 10
    case 19 => 2
    case 20 => 3
    case 22 => 17
    case 23 => 18
    case 24 => 19
    case 25 => 20
    case 27 => 22
    case 28 => 11
    case 30 => 15
    case 31 => 24
    case 32 => 16
    case 33 => 4
    case 35 => 1
    case 37 => 12
    case 38 => 14
    case 40 => 13
    case 42 => 6
    case 43 => 5
    case 44 => 23
    case 45 => 25
    case _ => 0
  }

  // yytable: the state to go to
  function YyTable(n: int): int {
    match n
    case 0 => 1
    case 1 => 21
    case 2 => 2
    case 3 => 3
    case 4 => 4
    case 5 => 5
    case 6 => 6
    case 7 => 7
    case 8 => 8
    case 9 => 9
    case 10 => 10
    case 11 => 11
    case 12 => 12
    case 13 => 13
    case 14 => 14
    case 15 => 15
    case 16 => 33
    case 17 => 34
    case 18 => 42
    case 19 => 22
    case 20 => 36
    case 21 => 23
    case 22 => 24
    case 23 => 25
    case 24 => 26
    case 25 => 16
    case 26 => 27
    case 27 => 17
    case 28 => 29
    case 29 => 30
    case 30 => 31
    case 31 => 35
    case 32 => 36
    case 33 => 37
    case 34 => 38
    case 35 => 39
    case 36 => 43
    case 37 => 41
    case 38 => 40
    case 40 => 44
    case 43 => 45
    case _ => 0
  }

  // yycheck: the token or state the entry of yytable belongs to
  function YyCheck(n: int): int {
    match n
    case 1 => 33
    case 2 => 6
    case 3 => 7
    case 4 => 8
    case 5 => 9
    case 6 => 10
    case 7 => 11
    case 8 => 12
    case 9 => 13
    case 10 => 14
    case 11 => 15
    case 12 => 16
    case 13 => 17
    case 14 => 18
    case 15 => 19
    case 16 => 16
    case 17 => 17
    case 18 => 32
    case 20 => 34
    case 24 => 33
    case 25 => 29
    case 27 => 31
    case 28 => 33
    case 31 => 0
    case 32 => 34
    case 33 => 5
    case 34 => 5
    case 35 => 3
    case 36 => 36
    case 37 => 3
    case 38 => 5
    case 39 => -1
    case 40 => 39
    case 41 => -1
    case 42 => -1
    case 43 => 41
    case _ => 4
  }

  // yyr1: the symbol a rule derives
  function YyR1(rule: int): int {
    match rule
    case 0 => 0
    case 1 => 35
    case 2 => 36
    case 3 => 37
    case 4 => 37
    case 5 => 37
    case 6 => 37
    case 22 => 39
    case 23 => 39
    case 24 => 40
    case 25 => 40
    case _ => 38
  }

  // yyr2: the length of a rule's right-hand side
  function YyR2(rule: int): int {
    match rule
    case 0 => 0
    case 2 => 1
    case 3 => 1
    case 5 => 3
    case 6 => 3
    case 7 => 1
    case 8 => 1
    case 9 => 1
    case 10 => 1
    case 12 => 3
    case 13 => 3
    case 14 => 3
    case 21 => 1
    case 22 => 1
    case 23 => 3
    case 24 => 1
    case 25 => 3
    case _ => 2
  }

  // yypgoto: where a nonterminal's entries start in yytable, counted from YYNTOKENS
  function YyPgoto(symbol: int): int {
    match symbol
    case 2 => 0
    case 4 => 1
    case 5 => 2
    case _ => -33
  }

  // yydefgoto: the state to go to when yytable says nothing
  function YyDefgoto(symbol: int): int {
    match symbol
    case 1 => 18
    case 2 => 19
    case 3 => 20
    case 4 => 28
    case 5 => 32
    case _ => -1
  }

  // ---------------------------------------------------------------------------
  // Tokens and elements
  // ---------------------------------------------------------------------------

  const COMMA := 3
  const TEXT := 4
  const NUMBER := 5
  const INCOMING := 6
  const OUTGOING := 7
  const LISTED := 8
  const PROTECTED := 9
  const CONNSPEED := 10
  const EXEC := 11
  const EXIST := 12
  const PORT := 13
  const MAILER := 14
  const TZ := 15
  const FLAG := 16
  const SPEED := 17
  const PHONE := 18
  const TIME := 19
  const NOT := 29
  const OPENB := 31
  const CLOSEB := 32
  const AROP := 33
  const LOGOP := 34

  // A token as the parser sees it: its symbol number, yylval, and for TEXT and NUMBER the
  // string that expr_p_text points at once it has been read.
  datatype Token = Token(kind: Symbol, value: int, text: nat)

  // A terminal's symbol number; 0 is the end of the input.
  type Symbol = k: int | 0 < k < NTOKENS witness 3

  // yylval of an operator is its own token number.
  const EQ := 276
  const NE := 277
  const GT := 278
  const GE := 279
  const LT := 280
  const LE := 281
  const AND := 282
  const OR := 283
  const XOR := 285

  datatype Check = CheckPhone | CheckExec | CheckExist | CheckPort | CheckMailer | CheckAddr | CheckFlag | CheckTime

  // The session the elements are checked against.
  datatype Session = Session(
    valid: bool, caller: bool, known: bool, listed: bool, guarded: bool,
    connspeed: int, speed: int, offset: int, check: (Check, nat) -> int)

  function Bit(b: bool): int {
    if b then 1 else 0
  }

  function Positive(e: int): int {
    if e < 0 then 0 else e
  }

  // expr_check_logic.  The operands of XOR are 0 and 1 once negative ones have been replaced.
  function Logic(e1: int, op: int, e2: int): int {
    var a, b := Positive(e1), Positive(e2);
    if op == AND then Bit(a != 0 && b != 0)
    else if op == OR then Bit(a != 0 || b != 0)
    else if op == XOR then Bit(a != b)
    else 0
  }

  // expr_check_arop
  function Arith(a: int, op: int, b: int): int {
    if op == EQ then Bit(a == b)
    else if op == NE then Bit(a != b)
    else if op == GT then Bit(a > b)
    else if op == GE then Bit(a >= b)
    else if op == LT then Bit(a < b)
    else if op == LE then Bit(a <= b)
    else 0
  }

  function Negate(e: int): int {
    if e < 0 then 0 else Bit(e == 0)
  }

  function Flagless(s: Session, kind: int): int {
    if kind == INCOMING then (if s.valid then Bit(!s.caller) else -1)
    else if kind == OUTGOING then (if s.valid then Bit(s.caller) else -1)
    else if kind == LISTED then (if s.valid && s.known then Bit(s.listed) else -1)
    else if s.valid && s.known then Bit(s.guarded)
    else -1
  }

  // CONNSPEED, SPEED and TZ against a number
  function Compare(s: Session, kind: int, op: int, number: int): int {
    if kind == CONNSPEED then (if s.valid && s.connspeed > 0 then Arith(s.connspeed, op, number) else -1)
    else if kind == SPEED then (if s.valid && s.speed > 0 then Arith(s.speed, op, number) else -1)
    else Arith(s.offset, op, number)
  }

  // ---------------------------------------------------------------------------
  // The machine of yyparse
  // ---------------------------------------------------------------------------

  datatype Frame = Frame(state: int, value: int)

  datatype Look = Empty | End | Tok(token: Token)

  datatype Status = Running | Accepted | Rejected

  // Stacks, lookahead, unread input, expr_p_text and expr_result.
  datatype Parser = Parser(stack: seq<Frame>, look: Look, input: seq<Token>, text: nat, result: int, status: Status)

  function NewParser(input: seq<Token>): Parser {
    Parser([Frame(0, 0)], Empty, input, 0, 0, Running)
  }

  function LookSymbol(look: Look): int {
    if look.Tok? then look.token.kind else 0
  }

  // yylex, when there is no lookahead yet
  function Read(p: Parser): Parser {
    if p.look != Empty then p
    else if p.input == [] then p.(look := End)
    else
      var t := p.input[0];
      p.(look := Tok(t), input := p.input[1..], text := if t.kind == TEXT || t.kind == NUMBER then t.text else p.text)
  }

  datatype Action = Shift(state: int) | Reduce(rule: int) | Accept | Error

  function Default(state: int): Action {
    if YyDefact(state) == 0 then Error else Reduce(YyDefact(state))
  }

  // yybackup with a lookahead
  function Decide(state: int, symbol: int): Action {
    var n := YyPact(state) + symbol;
    if n < 0 || n > LAST || YyCheck(n) != symbol then Default(state)
    else if YyTable(n) == 0 then Error
    else if YyTable(n) == FINAL then Accept
    else Shift(YyTable(n))
  }

  function Goto(from: int, symbol: int): int {
    var n := YyPgoto(symbol - NTOKENS) + from;
    if 0 <= n <= LAST && YyCheck(n) == from then YyTable(n) else YyDefgoto(symbol - NTOKENS)
  }

  // The actions: v1, v2, v3 are the values of the right-hand side from its end; None is YYABORT.
  function Value(s: Session, rule: int, v1: int, v2: int, v3: int, text: nat): Option<int> {
    match rule
    case 4 => Some(Negate(v1))
    case 5 => Some(Logic(v3, v2, v1))
    case 6 => Some(v2)
    case 7 => Some(Flagless(s, INCOMING))
    case 8 => Some(Flagless(s, OUTGOING))
    case 9 => Some(Flagless(s, LISTED))
    case 10 => Some(Flagless(s, PROTECTED))
    case 12 => Some(Compare(s, CONNSPEED, v2, v1))
    case 13 => Some(Compare(s, SPEED, v2, v1))
    case 14 => Some(Compare(s, TZ, v2, v1))
    case 15 => Some(s.check(CheckPhone, text))
    case 17 => Some(s.check(CheckExec, text))
    case 18 => Some(s.check(CheckExist, text))
    case 19 => Some(s.check(CheckPort, text))
    case 20 => Some(s.check(CheckMailer, text))
    case 21 => var v := s.check(CheckAddr, text); if v == -2 then None else Some(v)
    case 22 => Some(s.check(CheckFlag, text))
    case 23 => Some(Logic(v3, OR, v1))
    case 24 => var v := s.check(CheckTime, text); if v == -2 then None else Some(v)
    case 25 => Some(Logic(v3, OR, v1))
    case _ => Some(v1)
  }

  function At(stack: seq<Frame>, back: nat): int {
    if back < |stack| then stack[|stack| - 1 - back].value else 0
  }

  // yyreduce
  function Reduced(s: Session, p: Parser, rule: int): Parser {
    var n := |p.stack| - YyR2(rule);
    if n <= 0 || n > |p.stack| then p.(status := Rejected)
    else
      match Value(s, rule, At(p.stack, 0), At(p.stack, 1), At(p.stack, 2), p.text)
      case None => p.(status := Rejected)
      case Some(v) =>
        var below := p.stack[..n];
        p.(stack := below + [Frame(Goto(below[n - 1].state, YyR1(rule)), v)],
           result := if rule == 2 then v else p.result)
  }

  // No state accepts the error token, so a syntax error empties the stack and ends the parse.
  function Perform(s: Session, p: Parser, a: Action): Parser {
    match a
    case Shift(state) =>
      var v := if p.look.Tok? then p.look.token.value else 0;
      p.(stack := p.stack + [Frame(state, v)], look := if p.look.Tok? then Empty else p.look)
    case Reduce(rule) => Reduced(s, p, rule)
    case Accept => p.(status := Accepted)
    case Error => p.(status := Rejected)
  }

  function Top(p: Parser): int {
    if p.stack == [] then 0 else p.stack[|p.stack| - 1].state
  }

  // One turn from yynewstate to the next.
  function Step(s: Session, p: Parser): Parser {
    if p.status != Running then p
    else if YyPact(Top(p)) == NINF then Perform(s, p, Default(Top(p)))
    else
      var q := Read(p);
      Perform(s, q, Decide(Top(q), LookSymbol(q.look)))
  }

  function Steps(s: Session, p: Parser, n: nat): Parser
    decreases n
  {
    if n == 0 then p else Steps(s, Step(s, p), n - 1)
  }

  lemma {:induction false} StepsAdd(s: Session, p: Parser, m: nat, n: nat)
    ensures Steps(s, p, m + n) == Steps(s, Steps(s, p, m), n)
    decreases m
  {
    hide Step;
    if m > 0 {
      StepsAdd(s, Step(s, p), m - 1, n);
    }
  }

  // ---------------------------------------------------------------------------
  // What it is to compute: a recursive reading of the grammar.  All operators are of one
  // level and group to the right; NOT takes everything that follows.
  // ---------------------------------------------------------------------------

  datatype Parsed = Fail | Ok(value: int, rest: seq<Token>)

  predicate Starts(ts: seq<Token>, kind: int) {
    ts != [] && ts[0].kind == kind
  }

  // A list of flags or times.  Only its last entry is checked: an earlier one stands for the
  // value of its token, which is positive, so a list of two or more is true.
  function ReadList(s: Session, check: Check, ts: seq<Token>): (r: Parsed)
    ensures r.Ok? ==> |r.rest| < |ts|
    decreases |ts|
  {
    if !Starts(ts, TEXT) then Fail
    else if Starts(ts[1..], COMMA) then
      match ReadList(s, check, ts[2..])
      case Fail => Fail
      case Ok(v, rest) => Ok(Logic(ts[0].value, OR, v), rest)
    else
      var v := s.check(check, ts[0].text);
      if check == CheckTime && v == -2 then Fail else Ok(v, ts[1..])
  }

  function TextCheck(kind: int): Check {
    if kind == EXEC then CheckExec else if kind == EXIST then CheckExist else if kind == PORT then CheckPort
    else if kind == MAILER then CheckMailer else CheckPhone
  }

  function ReadElement(s: Session, ts: seq<Token>): (r: Parsed)
    ensures r.Ok? ==> |r.rest| < |ts|
  {
    if ts == [] then Fail
    else
      var k := ts[0].kind;
      if k == TEXT then
        var v := s.check(CheckAddr, ts[0].text);
        if v == -2 then Fail else Ok(v, ts[1..])
      else if INCOMING <= k <= PROTECTED then Ok(Flagless(s, k), ts[1..])
      else if k == FLAG then ReadList(s, CheckFlag, ts[1..])
      else if k == TIME then ReadList(s, CheckTime, ts[1..])
      else if k == CONNSPEED || k == SPEED || k == TZ then
        if Starts(ts[1..], AROP) && Starts(ts[2..], NUMBER) then Ok(Compare(s, k, ts[1].value, ts[2].value), ts[3..])
        else Fail
      else if EXEC <= k <= MAILER || k == PHONE then
        if Starts(ts[1..], TEXT) then Ok(s.check(TextCheck(k), ts[1].text), ts[2..]) else Fail
      else Fail
  }

  function ReadPrimary(s: Session, ts: seq<Token>): (r: Parsed)
    ensures r.Ok? ==> |r.rest| < |ts|
    decreases |ts|, 0
  {
    if Starts(ts, OPENB) then
      match ReadExpression(s, ts[1..])
      case Fail => Fail
      case Ok(v, rest) => if Starts(rest, CLOSEB) then Ok(v, rest[1..]) else Fail
    else ReadElement(s, ts)
  }

  function ReadExpression(s: Session, ts: seq<Token>): (r: Parsed)
    ensures r.Ok? ==> |r.rest| < |ts|
    decreases |ts|, 1
  {
    if Starts(ts, NOT) then
      match ReadExpression(s, ts[1..])
      case Fail => Fail
      case Ok(v, rest) => Ok(Negate(v), rest)
    else
      match ReadPrimary(s, ts)
      case Fail => Fail
      case Ok(v, rest) =>
        if !Starts(rest, LOGOP) then Ok(v, rest)
        else
          match ReadExpression(s, rest[1..])
          case Fail => Fail
          case Ok(w, last) => Ok(Logic(v, rest[0].value, w), last)
  }

  // eventexpr: the whole text must be one expression.
  function Evaluate(s: Session, ts: seq<Token>): Option<int> {
    match ReadExpression(s, ts)
    case Fail => None
    case Ok(v, rest) => if rest == [] then Some(v) else None
  }
}
