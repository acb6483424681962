// What expressions mean, in booleans: an expression is a tree, and the parser's value says
// whether it is true, false or unknown.
module ExpressionMeaning {
  import opened Wrappers
  import opened Expression
  import opened ExpressionParser

  // ---------------------------------------------------------------------------
  // Trees
  // ---------------------------------------------------------------------------

  datatype Expr =
    | Fact(kind: int)                            // incoming, outgoing, listed, protected
    | Relation(kind: int, op: int, number: int)  // connspeed, speed, tz
    | Asked(check: Check, text: nat)
    | Listing(check: Check, texts: seq<nat>)     // flags or times
    | Negation(e: Expr)
    | Junction(left: Expr, op: int, right: Expr)

  datatype Tree = Tree(e: Expr, rest: seq<Token>)

  function ListTree(check: Check, ts: seq<Token>): (r: Option<Tree>)
    ensures r.Some? ==> |r.value.rest| < |ts| && r.value.e.Listing? && r.value.e.texts != []
    decreases |ts|
  {
    if !Starts(ts, TEXT) then None
    else if Starts(ts[1..], COMMA) then
      match ListTree(check, ts[2..])
      case None => None
      case Some(t) => Some(Tree(Listing(check, [ts[0].text] + t.e.texts), t.rest))
    else Some(Tree(Listing(check, [ts[0].text]), ts[1..]))
  }

  function ElementTree(ts: seq<Token>): (r: Option<Tree>)
    ensures r.Some? ==> |r.value.rest| < |ts|
  {
    if ts == [] then None
    else
      var k, rest := ts[0].kind, ts[1..];
      if k == TEXT then Some(Tree(Asked(CheckAddr, ts[0].text), rest))
      else if k == INCOMING || k == OUTGOING || k == LISTED || k == PROTECTED then Some(Tree(Fact(k), rest))
      else if k == CONNSPEED || k == SPEED || k == TZ then RelationTree(k, rest)
      else if k == EXEC then AskedTree(CheckExec, rest)
      else if k == EXIST then AskedTree(CheckExist, rest)
      else if k == PORT then AskedTree(CheckPort, rest)
      else if k == MAILER then AskedTree(CheckMailer, rest)
      else if k == PHONE then AskedTree(CheckPhone, rest)
      else if k == FLAG then ListTree(CheckFlag, rest)
      else if k == TIME then ListTree(CheckTime, rest)
      else None
  }

  function RelationTree(kind: int, ts: seq<Token>): (r: Option<Tree>)
    ensures r.Some? ==> |r.value.rest| < |ts|
  {
    if |ts| >= 2 && ts[0].kind == AROP && ts[1].kind == NUMBER then
      Some(Tree(Relation(kind, ts[0].value, ts[1].value), ts[2..]))
    else None
  }

  function AskedTree(check: Check, ts: seq<Token>): (r: Option<Tree>)
    ensures r.Some? ==> |r.value.rest| < |ts|
  {
    if Starts(ts, TEXT) then Some(Tree(Asked(check, ts[0].text), ts[1..])) else None
  }

  function PrimaryTree(ts: seq<Token>): (r: Option<Tree>)
    ensures r.Some? ==> |r.value.rest| < |ts|
    decreases |ts|, 0
  {
    if Starts(ts, OPENB) then
      match ExpressionTree(ts[1..])
      case Some(t) => if Starts(t.rest, CLOSEB) then Some(Tree(t.e, t.rest[1..])) else None
      case None => None
    else ElementTree(ts)
  }

  // NOT takes all that follows, and operators group to the right.
  function ExpressionTree(ts: seq<Token>): (r: Option<Tree>)
    ensures r.Some? ==> |r.value.rest| < |ts|
    decreases |ts|, 1
  {
    if Starts(ts, NOT) then
      match ExpressionTree(ts[1..])
      case Some(t) => Some(Tree(Negation(t.e), t.rest))
      case None => None
    else
      match PrimaryTree(ts)
      case None => None
      case Some(t) =>
        if Starts(t.rest, LOGOP) then
          match ExpressionTree(t.rest[1..])
          case Some(u) => Some(Tree(Junction(t.e, t.rest[0].value, u.e), u.rest))
          case None => None
        else Some(t)
  }

  // ---------------------------------------------------------------------------
  // Their meaning
  // ---------------------------------------------------------------------------

  datatype Truth = Yes | No | Unknown

  function Said(b: bool): Truth {
    if b then Yes else No
  }

  function Answered(v: int): Truth {
    if v > 0 then Yes else if v < 0 then Unknown else No
  }

  // What is known of a session
  function FactOf(s: Session, kind: int): Truth {
    if !s.valid then Unknown
    else if kind == INCOMING then Said(!s.caller)
    else if kind == OUTGOING then Said(s.caller)
    else if !s.known then Unknown
    else Said(if kind == LISTED then s.listed else s.guarded)
  }

  predicate Relates(a: int, op: int, b: int) {
    || (op == EQ && a == b) || (op == NE && a != b)
    || (op == LT && a < b) || (op == LE && a <= b)
    || (op == GT && b < a) || (op == GE && b <= a)
  }

  function RelationOf(s: Session, kind: int, op: int, number: int): Truth {
    if kind == TZ then Said(Relates(s.offset, op, number))
    else
      var speed := if kind == CONNSPEED then s.connspeed else s.speed;
      if s.valid && speed > 0 then Said(Relates(speed, op, number)) else Unknown
  }

  // An operator takes what is unknown for false.
  predicate Joins(a: bool, op: int, b: bool) {
    || (op == AND && a && b) || (op == OR && (a || b)) || (op == XOR && a != b)
  }

  function Meaning(s: Session, e: Expr): Truth {
    match e
    case Fact(kind) => FactOf(s, kind)
    case Relation(kind, op, number) => RelationOf(s, kind, op, number)
    case Asked(check, text) => Answered(s.check(check, text))
    case Listing(check, texts) => if |texts| == 1 then Answered(s.check(check, texts[0])) else Yes
    case Negation(f) => Said(Meaning(s, f) == No)
    case Junction(l, op, r) => Said(Joins(Meaning(s, l) == Yes, op, Meaning(s, r) == Yes))
  }

  // Something that cannot be evaluated: an address, or the last time of a list
  predicate Invalid(s: Session, e: Expr) {
    match e
    case Asked(check, text) => check == CheckAddr && s.check(check, text) == -2
    case Listing(check, texts) =>
      check == CheckTime && texts != [] && s.check(check, texts[|texts| - 1]) == -2
    case Negation(f) => Invalid(s, f)
    case Junction(l, _, r) => Invalid(s, l) || Invalid(s, r)
    case _ => false
  }

  // ---------------------------------------------------------------------------
  // The parser's value is this meaning.
  // ---------------------------------------------------------------------------

  predicate Tells(s: Session, r: Parsed, t: Option<Tree>) {
    match t
    case None => r == Fail
    case Some(u) => if Invalid(s, u.e) then r == Fail else r.Ok? && r.rest == u.rest && Valued(r.value, Meaning(s, u.e))
  }

  predicate Valued(v: int, t: Truth) {
    match t
    case Yes => v == 1
    case No => v == 0
    case Unknown => v == -1
  }

  lemma LogicJoins(a: int, x: Truth, op: int, b: int, y: Truth)
    requires Valued(a, x) && Valued(b, y)
    ensures Valued(Logic(a, op, b), Said(Joins(x == Yes, op, y == Yes)))
  {
  }

  lemma CompareRelates(s: Session, kind: int, op: int, number: int)
    requires kind == CONNSPEED || kind == SPEED || kind == TZ
    ensures Valued(Compare(s, kind, op, number), RelationOf(s, kind, op, number))
  {
  }

  lemma FlaglessIsFact(s: Session, kind: int)
    requires kind == INCOMING || kind == OUTGOING || kind == LISTED || kind == PROTECTED
    ensures Valued(Flagless(s, kind), FactOf(s, kind))
  {
  }

  lemma NegateNegates(v: int, t: Truth)
    requires Valued(v, t)
    ensures Valued(Negate(v), Said(t == No))
  {
  }

  lemma {:induction false} ListTells(s: Session, check: Check, ts: seq<Token>)
    requires Answers(s) && Lexed(ts) && (check == CheckFlag || check == CheckTime)
    ensures Tells(s, ReadList(s, check, ts), ListTree(check, ts))
    decreases |ts|
  {
    if Starts(ts, TEXT) && Starts(ts[1..], COMMA) {
      ListTells(s, check, ts[2..]);
      assert ts[0].value > 0;
    }
  }

  lemma ElementTells(s: Session, ts: seq<Token>)
    requires Answers(s) && Lexed(ts)
    ensures Tells(s, ReadElement(s, ts), ElementTree(ts))
  {
    hide Flagless, Compare, FactOf, RelationOf, ReadList, ListTree;
    if ts != [] {
      var k := ts[0].kind;
      if k == FLAG {
        ListTells(s, CheckFlag, ts[1..]);
      } else if k == TIME {
        ListTells(s, CheckTime, ts[1..]);
      } else if INCOMING <= k <= PROTECTED {
        FlaglessIsFact(s, k);
      } else if k == CONNSPEED || k == SPEED || k == TZ {
        if |ts| >= 3 {
          assert ts[1..][2..] == ts[3..];
          CompareRelates(s, k, ts[1].value, ts[2].value);
        }
      } else if |ts| >= 2 {
        assert ts[1..][1..] == ts[2..];
      }
    }
  }

  lemma {:induction false} PrimaryTells(s: Session, ts: seq<Token>)
    requires Answers(s) && Lexed(ts)
    ensures Tells(s, ReadPrimary(s, ts), PrimaryTree(ts))
    decreases |ts|, 0
  {
    hide ReadElement, ElementTree, Meaning, Invalid;
    ElementTells(s, ts);
    if Starts(ts, OPENB) {
      ExpressionTells(s, ts[1..]);
    }
  }

  lemma {:induction false} ExpressionTells(s: Session, ts: seq<Token>)
    requires Answers(s) && Lexed(ts)
    ensures Tells(s, ReadExpression(s, ts), ExpressionTree(ts))
    decreases |ts|, 1
  {
    hide ReadPrimary, PrimaryTree, Logic, Negate, Valued;
    if Starts(ts, NOT) {
      ExpressionTells(s, ts[1..]);
      var t := ExpressionTree(ts[1..]);
      if t.Some? && !Invalid(s, t.value.e) {
        NegateNegates(ReadExpression(s, ts[1..]).value, Meaning(s, t.value.e));
      }
    } else {
      PrimaryTells(s, ts);
      var t := PrimaryTree(ts);
      if t.Some? && !Invalid(s, t.value.e) && Starts(t.value.rest, LOGOP) {
        RestLexed(s, ts);
        var more := t.value.rest[1..];
        ExpressionTells(s, more);
        var u := ExpressionTree(more);
        if u.Some? && !Invalid(s, u.value.e) {
          LogicJoins(ReadPrimary(s, ts).value, Meaning(s, t.value.e), t.value.rest[0].value,
                     ReadExpression(s, more).value, Meaning(s, u.value.e));
        }
      }
    }
  }

  // What is left over is the end of the tokens.
  lemma {:induction false} ListRest(check: Check, ts: seq<Token>)
    ensures var t := ListTree(check, ts); t.Some? ==> t.value.rest == ts[|ts| - |t.value.rest|..]
    decreases |ts|
  {
    if Starts(ts, TEXT) && Starts(ts[1..], COMMA) {
      ListRest(check, ts[2..]);
    }
  }

  predicate IsEnd(rest: seq<Token>, ts: seq<Token>) {
    |rest| <= |ts| && rest == ts[|ts| - |rest|..]
  }

  lemma ElementRest(ts: seq<Token>)
    ensures var t := ElementTree(ts); t.Some? ==> IsEnd(t.value.rest, ts)
  {
    hide ListTree;
    if ts != [] {
      ListRest(CheckFlag, ts[1..]);
      ListRest(CheckTime, ts[1..]);
    }
  }

  lemma {:induction false} PrimaryRest(ts: seq<Token>)
    ensures var t := PrimaryTree(ts); t.Some? ==> IsEnd(t.value.rest, ts)
    decreases |ts|, 0
  {
    hide ElementTree;
    ElementRest(ts);
    if Starts(ts, OPENB) {
      ExpressionRest(ts[1..]);
    }
  }

  lemma {:induction false} ExpressionRest(ts: seq<Token>)
    ensures var t := ExpressionTree(ts); t.Some? ==> IsEnd(t.value.rest, ts)
    decreases |ts|, 1
  {
    hide PrimaryTree;
    PrimaryRest(ts);
    if Starts(ts, NOT) {
      ExpressionRest(ts[1..]);
    } else {
      var t := PrimaryTree(ts);
      if t.Some? && Starts(t.value.rest, LOGOP) {
        ExpressionRest(t.value.rest[1..]);
      }
    }
  }

  lemma RestLexed(s: Session, ts: seq<Token>)
    requires Lexed(ts)
    ensures var t := PrimaryTree(ts);
            t.Some? ==> Lexed(t.value.rest) && (t.value.rest != [] ==> Lexed(t.value.rest[1..]))
  {
    hide PrimaryTree;
    PrimaryRest(ts);
  }

  // The main result: a text is accepted exactly if it is one whole expression without invalid
  // parts, and its value is 1, 0 or -1 as that is true, false or unknown.
  lemma ValueIsMeaning(s: Session, ts: seq<Token>)
    requires Answers(s) && Lexed(ts)
    ensures var t := ExpressionTree(ts);
            match Evaluate(s, ts)
            case None => t.None? || t.value.rest != [] || Invalid(s, t.value.e)
            case Some(v) => t.Some? && t.value.rest == [] && Valued(v, Meaning(s, t.value.e))
  {
    hide ExpressionTree, ReadExpression, Meaning, Invalid, Valued;
    ExpressionTells(s, ts);
  }
}
