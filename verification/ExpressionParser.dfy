// The LALR machine computes what the recursive reading says, for every token sequence.
module ExpressionParser {
  import opened Wrappers
  import opened Expression

  // ---------------------------------------------------------------------------
  // What the tables say about the states
  // ---------------------------------------------------------------------------

  // States in which an expression may begin, and where it leads.
  predicate Begins(q: int) {
    q == 0 || q == 16 || q == 17 || q == 36
  }

  function ExprState(q: int): int {
    if q == 0 then 19 else if q == 16 then 33 else if q == 17 then 34 else 43
  }

  // The same for a list of flags or times.
  predicate BeginsList(q: int) {
    q == 12 || q == 39 || q == 15 || q == 41
  }

  function ListState(q: int): int {
    if q == 12 then 28 else if q == 39 then 44 else if q == 15 then 32 else 45
  }

  function OfFlags(q: int): bool {
    q == 12 || q == 39
  }

  lemma StartTable(q: int, k: int)
    requires Begins(q)
    ensures YyPact(q) != NINF
    ensures Decide(q, k) ==
            if k == TEXT then Shift(1) else if INCOMING <= k <= TIME then Shift(k - 4)
            else if k == NOT then Shift(16) else if k == OPENB then Shift(17) else Error
  {
  }

  lemma GotoTable(q: int)
    requires Begins(q)
    ensures Goto(q, 38) == 20 && Goto(q, 37) == ExprState(q)
  {
  }

  lemma ListTable(q: int, k: int)
    requires BeginsList(q)
    ensures YyPact(q) != NINF && Goto(q, if OfFlags(q) then 39 else 40) == ListState(q)
    ensures Decide(q, k) == if k == TEXT then Shift(if OfFlags(q) then 27 else 31) else Error
    ensures YyPact(27) != NINF && YyPact(31) != NINF
    ensures Decide(27, k) == if k == COMMA then Shift(39) else Reduce(22)
    ensures Decide(31, k) == if k == COMMA then Shift(41) else Reduce(24)
  {
  }

  lemma AfterTable(g: int, k: int)
    requires g == 19 || g == 33 || g == 34 || g == 43
    ensures YyPact(g) != NINF
    ensures Decide(g, k) ==
            if k == LOGOP then Shift(36)
            else if g == 19 then Reduce(2) else if g == 33 then Reduce(4) else if g == 43 then Reduce(5)
            else if k == CLOSEB then Shift(42) else Error
  {
  }

  // Elements with a text
  lemma OperandTable(q: int, k: int)
    requires 7 <= q <= 10 || q == 14
    ensures YyPact(q) != NINF && Decide(q, k) == if k == TEXT then Shift(if q == 14 then 30 else q + 15) else Error
  {
  }

  // Comparisons
  lemma OperatorTable(q: int, k: int)
    requires q == 6 || q == 11 || q == 13
    ensures YyPact(q) != NINF
    ensures Decide(q, k) == if k == AROP then Shift(if q == 6 then 21 else if q == 11 then 26 else 29) else Error
  {
  }

  lemma NumberTable(q: int, k: int)
    requires q == 21 || q == 26 || q == 29
    ensures YyPact(q) != NINF
    ensures Decide(q, k) == if k == NUMBER then Shift(if q == 21 then 37 else if q == 26 then 38 else 40) else Error
  {
  }

  lemma LineTable(k: int)
    ensures YyPact(18) != NINF && Decide(18, k) == if k == 0 then Accept else Error
  {
  }

  // States that reduce without looking further.
  function OnlyRule(q: int): int {
    if q == 1 then 21 else if 2 <= q <= 5 then q + 5 else if q == 20 then 3
    else if 22 <= q <= 25 then q - 5 else if q == 28 then 11 else if q == 30 then 15 else if q == 32 then 16
    else if q == 37 then 12 else if q == 38 then 14 else if q == 40 then 13 else if q == 42 then 6
    else if q == 44 then 23 else if q == 45 then 25 else 0
  }

  lemma ReducingTable(q: int)
    requires OnlyRule(q) != 0
    ensures YyPact(q) == NINF && Default(q) == Reduce(OnlyRule(q))
  {
  }

  lemma RuleTable()
    ensures YyR1(2) == 36 && YyR2(2) == 1
    ensures YyR1(3) == YyR1(4) == YyR1(5) == YyR1(6) == 37
    ensures YyR2(3) == 1 && YyR2(4) == 2 && YyR2(5) == YyR2(6) == 3
    ensures forall r :: 7 <= r <= 21 ==> YyR1(r) == 38
    ensures YyR2(7) == YyR2(8) == YyR2(9) == YyR2(10) == YyR2(21) == 1 && YyR2(11) == YyR2(16) == 2
    ensures YyR2(12) == YyR2(13) == YyR2(14) == 3
    ensures YyR2(15) == YyR2(17) == YyR2(18) == YyR2(19) == YyR2(20) == 2
    ensures YyR1(22) == YyR1(23) == 39 && YyR1(24) == YyR1(25) == 40
    ensures YyR2(22) == YyR2(24) == 1 && YyR2(23) == YyR2(25) == 3
    ensures Goto(0, 36) == 18
  {
  }

  // ---------------------------------------------------------------------------
  // Runs of the machine
  // ---------------------------------------------------------------------------

  ghost predicate Goes(s: Session, p: Parser, q: Parser) {
    exists n: nat :: Steps(s, p, n) == q
  }

  lemma GoesOn(s: Session, p: Parser, q: Parser, r: Parser)
    requires Goes(s, p, q) && Goes(s, q, r)
    ensures Goes(s, p, r)
  {
    var m: nat :| Steps(s, p, m) == q;
    var n: nat :| Steps(s, q, n) == r;
    StepsAdd(s, p, m, n);
    assert Steps(s, p, m + n) == r;
  }

  lemma GoesStep(s: Session, p: Parser)
    ensures Goes(s, p, Step(s, p))
  {
    hide Step;
    assert Steps(s, Step(s, p), 0) == Step(s, p);
    assert Steps(s, p, 1) == Step(s, p);
  }

  // The tokens not yet shifted.
  function Upcoming(p: Parser): seq<Token> {
    if p.look.Tok? then [p.look.token] + p.input else p.input
  }

  predicate Live(p: Parser) {
    p.status == Running && p.stack != [] && (p.look == End ==> p.input == [])
  }

  function Kind(ts: seq<Token>): int {
    if ts == [] then 0 else ts[0].kind
  }

  // A token after which nothing can be completed, but which has changed expr_p_text.
  predicate Junk(ts: seq<Token>) {
    ts != [] && (ts[0].kind == TEXT || ts[0].kind == NUMBER)
  }

  // What a step does that shifts.
  lemma ShiftStep(s: Session, p: Parser, n: int)
    requires Live(p) && YyPact(Top(p)) != NINF && Upcoming(p) != []
    requires Decide(Top(p), Upcoming(p)[0].kind) == Shift(n)
    ensures var d := Step(s, p); var t := Upcoming(p)[0];
            && Live(d) && d.stack == p.stack + [Frame(n, t.value)] && d.look == Empty && d.input == Upcoming(p)[1..]
            && (p.look == Empty && t.kind == TEXT ==> d.text == t.text)
            && (t.kind != TEXT && t.kind != NUMBER ==> d.text == p.text)
            && Goes(s, p, d)
  {
    hide YyPact, Decide;
    GoesStep(s, p);
  }

  lemma ErrorStep(s: Session, p: Parser)
    requires Live(p) && YyPact(Top(p)) != NINF
    requires Decide(Top(p), Kind(Upcoming(p))) == Error
    ensures Step(s, p).status == Rejected && Goes(s, p, Step(s, p))
  {
    hide YyPact, Decide;
    GoesStep(s, p);
  }

  // What a step does that reduces: the right-hand side gives way to one frame.
  lemma ReduceStep(s: Session, p: Parser, rule: int)
    requires Live(p) && 0 < YyR2(rule) < |p.stack|
    requires (YyPact(Top(p)) == NINF && Default(Top(p)) == Reduce(rule))
          || (YyPact(Top(p)) != NINF && Decide(Top(p), Kind(Upcoming(p))) == Reduce(rule))
    ensures var d := Step(s, p);
            var below := p.stack[..|p.stack| - YyR2(rule)];
            var text := if YyPact(Top(p)) == NINF then p.text else Read(p).text;
            var v := Value(s, rule, At(p.stack, 0), At(p.stack, 1), At(p.stack, 2), text);
            && Goes(s, p, d)
            && (v == None ==> d.status == Rejected)
            && (v.Some? ==>
                && Live(d) && d.stack == below + [Frame(Goto(below[|below| - 1].state, YyR1(rule)), v.value)]
                && Upcoming(d) == Upcoming(p) && d.result == if rule == 2 then v.value else p.result)
    ensures YyPact(Top(p)) == NINF ==> Step(s, p).look == p.look && Step(s, p).text == p.text
    ensures YyPact(Top(p)) != NINF && !Junk(Upcoming(p)) ==> Read(p).text == p.text
  {
    hide YyPact, Decide, Default, Value, Goto, YyR1, YyR2;
    GoesStep(s, p);
  }

  // ---------------------------------------------------------------------------
  // What a run is to arrive at
  // ---------------------------------------------------------------------------

  // One more frame, in state g, with value v, and the tokens of rest still to come.
  predicate Landed(p: Parser, d: Parser, g: int, v: int, rest: seq<Token>) {
    Live(d) && d.stack == p.stack + [Frame(g, v)] && Upcoming(d) == rest
  }

  // Nowhere to go: rejected, or stopped in front of a token that nothing can follow.
  predicate Doomed(p: Parser, d: Parser, g: int) {
    d.status == Rejected || (Live(d) && Junk(Upcoming(d)) && |d.stack| == |p.stack| + 1
                             && d.stack[..|p.stack|] == p.stack && Top(d) == g)
  }

  predicate Arrives(p: Parser, d: Parser, g: int, r: Parsed) {
    match r
    case Fail => Doomed(p, d, g)
    case Ok(v, rest) => if Junk(rest) then Doomed(p, d, g) else Landed(p, d, g, v, rest)
  }

  predicate Ready(p: Parser) {
    Live(p) && p.look == Empty
  }

  // A reduction carries what a run has arrived at one level up.
  lemma ReduceLanded(s: Session, b: Parser, p: Parser, d: Parser, rule: int, g: int, h: int)
    requires Live(b) && |p.stack| == |b.stack| + YyR2(rule) - 1 && YyR2(rule) > 0 && p.stack[..|b.stack|] == b.stack
    requires Live(d) && |d.stack| == |p.stack| + 1 && d.stack[..|p.stack|] == p.stack && Top(d) == g
    requires YyPact(g) == NINF && Default(g) == Reduce(rule)
    requires Goto(Top(b), YyR1(rule)) == h
    requires rule != 21 && rule != 22 && rule != 24
    ensures var e := Step(s, d);
            && Goes(s, d, e) && Live(e) && |e.stack| == |b.stack| + 1 && e.stack[..|b.stack|] == b.stack && Top(e) == h
            && Upcoming(e) == Upcoming(d)
            && Some(e.stack[|b.stack|].value) == Value(s, rule, At(d.stack, 0), At(d.stack, 1), At(d.stack, 2), d.text)
  {
    hide YyPact, Default, Goto, YyR1, YyR2, Value;
    ReduceStep(s, d, rule);
    ValueAborts(s, rule, At(d.stack, 0), At(d.stack, 1), At(d.stack, 2), d.text);
    var below := d.stack[..|d.stack| - YyR2(rule)];
    assert below == b.stack;
  }

  lemma ValueAborts(s: Session, rule: int, v1: int, v2: int, v3: int, text: nat)
    requires rule != 21 && rule != 24
    ensures Value(s, rule, v1, v2, v3, text).Some?
  {
  }

  // From an element to an expression.
  lemma Promote(s: Session, p: Parser, d: Parser, v: int, rest: seq<Token>) returns (e: Parser)
    requires Live(p) && Begins(Top(p)) && Landed(p, d, 20, v, rest)
    ensures Goes(s, d, e) && Landed(p, e, ExprState(Top(p)), v, rest)
  {
    hide YyPact, Default, Goto, YyR1, YyR2;
    ReducingTable(20);
    GotoTable(Top(p));
    RuleTable();
    assert d.stack[..|p.stack|] == p.stack;
    ReduceLanded(s, p, p, d, 3, 20, ExprState(Top(p)));
    e := Step(s, d);
    assert At(d.stack, 0) == v;
    assert e.stack == p.stack + [e.stack[|p.stack|]];
  }

  // ---------------------------------------------------------------------------
  // Lists of flags and times
  // ---------------------------------------------------------------------------

  function CheckOf(q: int): Check {
    if OfFlags(q) then CheckFlag else CheckTime
  }

  lemma {:induction false} ListRuns(s: Session, p: Parser) returns (d: Parser)
    requires Ready(p) && BeginsList(Top(p))
    ensures Goes(s, p, d) && Arrives(p, d, ListState(Top(p)), ReadList(s, CheckOf(Top(p)), p.input))
    decreases |p.input|
  {
    hide YyPact, Decide, Default, Goto, YyR1, YyR2, Goes, Value;
    var q, ts := Top(p), p.input;
    ListTable(q, Kind(ts));
    if !Starts(ts, TEXT) {
      ErrorStep(s, p);
      d := Step(s, p);
    } else {
      var n := if OfFlags(q) then 27 else 31;
      ShiftStep(s, p, n);
      var p1 := Step(s, p);
      ListTable(q, Kind(ts[1..]));
      if Starts(ts[1..], COMMA) {
        ShiftStep(s, p1, if OfFlags(q) then 39 else 41);
        var p2 := Step(s, p1);
        GoesOn(s, p, p1, p2);
        var d2 := ListRuns(s, p2);
        GoesOn(s, p, p2, d2);
        assert ts[1..][1..] == ts[2..];
        d := ListFolds(s, p, p2, d2, ts[0].value);
        GoesOn(s, p, d2, d);
      } else {
        d := ListEnds(s, p, p1, ts);
        GoesOn(s, p, p1, d);
      }
    }
  }

  lemma LastEntry(s: Session, check: Check, ts: seq<Token>)
    requires Starts(ts, TEXT) && !Starts(ts[1..], COMMA)
    ensures var v := s.check(check, ts[0].text);
            ReadList(s, check, ts) == if check == CheckTime && v == -2 then Fail else Ok(v, ts[1..])
  {
  }

  // The last entry is checked, with whatever text was read last.
  lemma ListEnds(s: Session, p: Parser, p1: Parser, ts: seq<Token>) returns (d: Parser)
    requires Live(p) && BeginsList(Top(p)) && Starts(ts, TEXT) && !Starts(ts[1..], COMMA)
    requires Live(p1) && p1.look == Empty && p1.input == ts[1..] && p1.text == ts[0].text
    requires p1.stack == p.stack + [Frame(if OfFlags(Top(p)) then 27 else 31, ts[0].value)]
    ensures Goes(s, p1, d) && Arrives(p, d, ListState(Top(p)), ReadList(s, CheckOf(Top(p)), ts))
  {
    hide YyPact, Decide, Default, Goto, YyR1, YyR2, Goes, ReadList, Value, Read;
    var q := Top(p);
    var rule := if OfFlags(q) then 22 else 24;
    ListTable(q, Kind(ts[1..]));
    RuleTable();
    ReduceStep(s, p1, rule);
    LastEntry(s, CheckOf(q), ts);
    ListValue(s, rule, At(p1.stack, 0), At(p1.stack, 1), At(p1.stack, 2), Read(p1).text);
    d := Step(s, p1);
    assert p1.stack[..|p.stack|] == p.stack;
    assert Upcoming(p1) == ts[1..];
    if d.status == Running {
      assert d.stack == p.stack + [d.stack[|p.stack|]];
    }
  }

  lemma ListValue(s: Session, rule: int, v1: int, v2: int, v3: int, text: nat)
    requires rule == 22 || rule == 24
    ensures var v := s.check(if rule == 22 then CheckFlag else CheckTime, text);
            Value(s, rule, v1, v2, v3, text) == if rule == 24 && v == -2 then None else Some(v)
  {
  }

  // An earlier entry joins what follows it.
  lemma ListFolds(s: Session, p: Parser, p2: Parser, d2: Parser, head: int) returns (d: Parser)
    requires Live(p) && BeginsList(Top(p)) && Live(p2)
    requires |p2.stack| == |p.stack| + 2 && p2.stack[..|p.stack|] == p.stack && p2.stack[|p.stack|].value == head
    requires BeginsList(Top(p2)) && OfFlags(Top(p2)) == OfFlags(Top(p))
            && Top(p2) == (if OfFlags(Top(p)) then 39 else 41)
    requires Arrives(p2, d2, ListState(Top(p2)), ReadList(s, CheckOf(Top(p)), p2.input))
    ensures Goes(s, d2, d)
    ensures Arrives(p, d, ListState(Top(p)),
              match ReadList(s, CheckOf(Top(p)), p2.input) case Fail => Fail
                  case Ok(v, rest) => Ok(Logic(head, OR, v), rest))
  {
    hide YyPact, Decide, Default, Goto, YyR1, YyR2, Goes, ReadList;
    var q := Top(p);
    var g := ListState(Top(p2));
    var rule := if OfFlags(q) then 23 else 25;
    ListTable(q, 0);
    ReducingTable(g);
    RuleTable();
    if d2.status == Rejected {
      d := d2;
      GoesNowhere(s, d);
    } else {
      assert d2.stack[..|p2.stack|] == p2.stack;
      ReduceLanded(s, p, p2, d2, rule, g, ListState(q));
      d := Step(s, d2);
      assert d.stack == p.stack + [d.stack[|p.stack|]];
      assert At(d2.stack, 2) == d2.stack[|p.stack|].value == p2.stack[|p.stack|].value == head;
    }
  }

  lemma GoesNowhere(s: Session, p: Parser)
    ensures Goes(s, p, p)
  {
    assert Steps(s, p, 0) == p;
  }

  // ---------------------------------------------------------------------------
  // Elements
  // ---------------------------------------------------------------------------

  // The last token of an element has been shifted: it is reduced without a lookahead.
  lemma ElementEnds(s: Session, p: Parser, d: Parser, rule: int) returns (e: Parser)
    requires Live(p) && Begins(Top(p)) && Ready(d)
    requires YyPact(Top(d)) == NINF && Default(Top(d)) == Reduce(rule) && YyR1(rule) == 38
    requires 0 < YyR2(rule) && |d.stack| == |p.stack| + YyR2(rule) && d.stack[..|p.stack|] == p.stack
    ensures Goes(s, d, e)
    ensures var v := Value(s, rule, At(d.stack, 0), At(d.stack, 1), At(d.stack, 2), d.text);
            if v == None then e.status == Rejected else Landed(p, e, ExprState(Top(p)), v.value, d.input)
  {
    hide YyPact, Decide, Default, Goto, YyR1, YyR2, Goes, Value;
    GotoTable(Top(p));
    ReduceStep(s, d, rule);
    var c := Step(s, d);
    e := c;
    assert d.stack[..|d.stack| - YyR2(rule)] == p.stack;
    if c.status == Running {
      assert Landed(p, c, 20, c.stack[|p.stack|].value, d.input);
      e := Promote(s, p, c, c.stack[|p.stack|].value, d.input);
      GoesOn(s, d, c, e);
    }
  }

  // Addresses, INCOMING, OUTGOING, LISTED and PROTECTED
  lemma WordRuns(s: Session, p: Parser) returns (d: Parser)
    requires Ready(p) && Begins(Top(p)) && p.input != []
    requires p.input[0].kind == TEXT || INCOMING <= p.input[0].kind <= PROTECTED
    ensures Goes(s, p, d) && Arrives(p, d, ExprState(Top(p)), ReadElement(s, p.input))
  {
    hide YyPact, Decide, Default, Goto, YyR1, YyR2, Goes;
    var ts := p.input;
    var k := ts[0].kind;
    var n := if k == TEXT then 1 else k - 4;
    StartTable(Top(p), k);
    ShiftStep(s, p, n);
    ReducingTable(n);
    RuleTable();
    d := ElementEnds(s, p, Step(s, p), OnlyRule(n));
    GoesOn(s, p, Step(s, p), d);
    JunkOrNot(p, d, ExprState(Top(p)), ReadElement(s, ts));
  }

  // A landing in front of junk is as good as lost.
  lemma JunkOrNot(p: Parser, d: Parser, g: int, r: Parsed)
    requires if r == Fail then d.status == Rejected else Landed(p, d, g, r.value, r.rest)
    ensures Arrives(p, d, g, r)
  {
    if r.Ok? {
      assert d.stack[..|p.stack|] == p.stack;
    }
  }

  // EXEC, EXIST, PORT, MAILER and PHONE with their text
  lemma OperandRuns(s: Session, p: Parser) returns (d: Parser)
    requires Ready(p) && Begins(Top(p)) && p.input != []
    requires EXEC <= p.input[0].kind <= MAILER || p.input[0].kind == PHONE
    ensures Goes(s, p, d) && Arrives(p, d, ExprState(Top(p)), ReadElement(s, p.input))
  {
    hide YyPact, Decide, Default, Goto, YyR1, YyR2, Goes;
    var ts := p.input;
    var k := ts[0].kind;
    StartTable(Top(p), k);
    ShiftStep(s, p, k - 4);
    var p1 := Step(s, p);
    OperandTable(k - 4, Kind(ts[1..]));
    if !Starts(ts[1..], TEXT) {
      ErrorStep(s, p1);
      d := Step(s, p1);
    } else {
      var n := if k == PHONE then 30 else k + 11;
      ShiftStep(s, p1, n);
      ReducingTable(n);
      RuleTable();
      var p2 := Step(s, p1);
      assert ts[1..][1..] == ts[2..];
      assert p2.stack[..|p.stack|] == p.stack;
      d := ElementEnds(s, p, p2, OnlyRule(n));
      GoesOn(s, p1, p2, d);
      JunkOrNot(p, d, ExprState(Top(p)), ReadElement(s, ts));
    }
    GoesOn(s, p, p1, d);
  }

  // CONNSPEED, SPEED and TZ with their operator and number
  lemma ComparisonRuns(s: Session, p: Parser) returns (d: Parser)
    requires Ready(p) && Begins(Top(p)) && p.input != []
    requires p.input[0].kind == CONNSPEED || p.input[0].kind == SPEED || p.input[0].kind == TZ
    ensures Goes(s, p, d) && Arrives(p, d, ExprState(Top(p)), ReadElement(s, p.input))
  {
    hide YyPact, Decide, Default, Goto, YyR1, YyR2, Goes, Compare;
    var ts := p.input;
    var k := ts[0].kind;
    StartTable(Top(p), k);
    ShiftStep(s, p, k - 4);
    var p1 := Step(s, p);
    OperatorTable(k - 4, Kind(ts[1..]));
    if !Starts(ts[1..], AROP) {
      ErrorStep(s, p1);
      d := Step(s, p1);
    } else {
      var n := if k == CONNSPEED then 21 else if k == TZ then 26 else 29;
      ShiftStep(s, p1, n);
      var p2 := Step(s, p1);
      assert ts[1..][1..] == ts[2..];
      d := NumberRuns(s, p, p2, ts, n);
      GoesOn(s, p1, p2, d);
    }
    GoesOn(s, p, p1, d);
  }

  lemma NumberRuns(s: Session, p: Parser, p2: Parser, ts: seq<Token>, n: int) returns (d: Parser)
    requires Live(p) && Begins(Top(p)) && |ts| >= 2 && ts[1].kind == AROP && Ready(p2) && p2.input == ts[2..]
    requires ts[0].kind == CONNSPEED || ts[0].kind == SPEED || ts[0].kind == TZ
    requires n == if ts[0].kind == CONNSPEED then 21 else if ts[0].kind == TZ then 26 else 29
    requires p2.stack == p.stack + [Frame(ts[0].kind - 4, ts[0].value)] + [Frame(n, ts[1].value)]
    ensures Goes(s, p2, d) && Arrives(p, d, ExprState(Top(p)), ReadElement(s, ts))
  {
    hide YyPact, Decide, Default, Goto, YyR1, YyR2, Goes, Compare;
    NumberTable(n, Kind(ts[2..]));
    if !Starts(ts[2..], NUMBER) {
      ErrorStep(s, p2);
      d := Step(s, p2);
    } else {
      var m := if n == 21 then 37 else if n == 26 then 38 else 40;
      ShiftStep(s, p2, m);
      ReducingTable(m);
      RuleTable();
      var p3 := Step(s, p2);
      assert ts[2..][1..] == ts[3..];
      assert p3.stack[..|p.stack|] == p.stack;
      d := ElementEnds(s, p, p3, OnlyRule(m));
      GoesOn(s, p2, p3, d);
      JunkOrNot(p, d, ExprState(Top(p)), ReadElement(s, ts));
    }
  }

  // FLAG and TIME with their lists
  lemma ListedRuns(s: Session, p: Parser) returns (d: Parser)
    requires Ready(p) && Begins(Top(p)) && p.input != []
    requires p.input[0].kind == FLAG || p.input[0].kind == TIME
    ensures Goes(s, p, d) && Arrives(p, d, ExprState(Top(p)), ReadElement(s, p.input))
  {
    hide YyPact, Decide, Default, Goto, YyR1, YyR2, Goes, ReadList;
    var ts := p.input;
    var k := ts[0].kind;
    StartTable(Top(p), k);
    ShiftStep(s, p, k - 4);
    var p1 := Step(s, p);
    var c := ListRuns(s, p1);
    GoesOn(s, p, p1, c);
    d := ListJoins(s, p, p1, c, ReadList(s, CheckOf(k - 4), ts[1..]));
    GoesOn(s, p, c, d);
  }

  lemma ListJoins(s: Session, p: Parser, p1: Parser, c: Parser, r: Parsed) returns (d: Parser)
    requires Live(p) && Begins(Top(p)) && Live(p1) && (Top(p1) == 12 || Top(p1) == 15)
    requires |p1.stack| == |p.stack| + 1 && p1.stack[..|p.stack|] == p.stack
    requires Arrives(p1, c, ListState(Top(p1)), r)
    ensures Goes(s, c, d) && Arrives(p, d, ExprState(Top(p)), r)
  {
    hide YyPact, Decide, Default, Goto, YyR1, YyR2, Goes;
    var g := ListState(Top(p1));
    if c.status == Rejected {
      d := c;
      GoesNowhere(s, d);
    } else {
      assert c.stack[..|p1.stack|] == p1.stack;
      ReducingTable(g);
      RuleTable();
      GotoTable(Top(p));
      ReduceLanded(s, p, p1, c, if g == 28 then 11 else 16, g, 20);
      var e := Step(s, c);
      assert e.stack == p.stack + [Frame(20, e.stack[|p.stack|].value)];
      d := Promote(s, p, e, e.stack[|p.stack|].value, Upcoming(e));
      assert d.stack[..|p.stack|] == p.stack;
      GoesOn(s, c, e, d);
    }
  }

  lemma ElementRuns(s: Session, p: Parser) returns (d: Parser)
    requires Ready(p) && Begins(Top(p)) && !Starts(p.input, NOT) && !Starts(p.input, OPENB)
    ensures Goes(s, p, d) && Arrives(p, d, ExprState(Top(p)), ReadElement(s, p.input))
  {
    hide YyPact, Decide, Goes, Compare, ReadList, Flagless;
    var k := Kind(p.input);
    if k == TEXT || INCOMING <= k <= PROTECTED {
      d := WordRuns(s, p);
    } else if k == FLAG || k == TIME {
      d := ListedRuns(s, p);
    } else if k == CONNSPEED || k == SPEED || k == TZ {
      d := ComparisonRuns(s, p);
    } else if EXEC <= k <= MAILER || k == PHONE {
      d := OperandRuns(s, p);
    } else {
      StartTable(Top(p), k);
      ErrorStep(s, p);
      d := Step(s, p);
    }
  }

  // ---------------------------------------------------------------------------
  // Expressions
  // ---------------------------------------------------------------------------

  // A whole operand is never followed by another operator.
  lemma {:induction false} OperatorsAreTaken(s: Session, ts: seq<Token>)
    ensures var r := ReadExpression(s, ts); r.Ok? ==> !Starts(r.rest, LOGOP)
    decreases |ts|
  {
    if Starts(ts, NOT) {
      OperatorsAreTaken(s, ts[1..]);
    } else {
      var r := ReadPrimary(s, ts);
      if r.Ok? && Starts(r.rest, LOGOP) {
        OperatorsAreTaken(s, r.rest[1..]);
      }
    }
  }

  // The operand of NOT, or of a binary operator, is complete.
  lemma OperandDone(s: Session, p: Parser, p1: Parser, c: Parser, g: int, r: Parsed) returns (d: Parser)
    requires Live(p) && Begins(Top(p)) && Live(p1) && (g == 33 || g == 43)
    requires |p1.stack| == |p.stack| + (if g == 33 then 1 else 2) && p1.stack[..|p.stack|] == p.stack
    requires Arrives(p1, c, g, r) && (r.Ok? ==> !Starts(r.rest, LOGOP))
    ensures Goes(s, c, d)
    ensures Arrives(p, d, ExprState(Top(p)),
              match r case Fail => Fail
                      case Ok(v, rest) => Ok(if g == 33 then Negate(v)
                          else Logic(At(p1.stack, 1), At(p1.stack, 0), v), rest))
  {
    hide YyPact, Decide, Default, Goto, YyR1, YyR2, Goes, Logic, Negate;
    if c.status == Rejected {
      d := c;
      GoesNowhere(s, d);
    } else {
      assert c.stack[..|p1.stack|] == p1.stack;
      AfterTable(g, Kind(Upcoming(c)));
      RuleTable();
      GotoTable(Top(p));
      ReduceStep(s, c, if g == 33 then 4 else 5);
      d := Step(s, c);
      assert c.stack[..|p.stack|] == p.stack;
      assert d.stack == p.stack + [d.stack[|p.stack|]];
      assert At(c.stack, 1) == At(p1.stack, 0);
      assert g == 43 ==> At(c.stack, 2) == At(p1.stack, 1);
    }
  }

  // The expression in brackets is complete.
  lemma BracketsDone(s: Session, p: Parser, p1: Parser, c: Parser, r: Parsed) returns (d: Parser)
    requires Live(p) && Begins(Top(p)) && Live(p1)
    requires |p1.stack| == |p.stack| + 1 && p1.stack[..|p.stack|] == p.stack
    requires Arrives(p1, c, 34, r) && (r.Ok? ==> !Starts(r.rest, LOGOP))
    ensures Goes(s, c, d)
    ensures Arrives(p, d, ExprState(Top(p)),
              if r.Ok? && Starts(r.rest, CLOSEB) then Ok(r.value, r.rest[1..]) else Fail)
  {
    hide YyPact, Decide, Default, Goto, YyR1, YyR2, Goes;
    if c.status == Rejected {
      d := c;
      GoesNowhere(s, d);
    } else {
      AfterTable(34, Kind(Upcoming(c)));
      if Starts(Upcoming(c), CLOSEB) {
        ShiftStep(s, c, 42);
        var c1 := Step(s, c);
        ReducingTable(42);
        RuleTable();
        GotoTable(Top(p));
        ReduceStep(s, c1, 6);
        d := Step(s, c1);
        assert c1.stack[..|p.stack|] == p.stack;
        assert d.stack == p.stack + [Frame(ExprState(Top(p)), r.value)];
        GoesOn(s, c, c1, d);
        JunkOrNot(p, d, ExprState(Top(p)), Ok(r.value, r.rest[1..]));
      } else {
        ErrorStep(s, c);
        d := Step(s, c);
      }
    }
  }

  lemma {:induction false} PrimaryRuns(s: Session, p: Parser) returns (d: Parser)
    requires Ready(p) && Begins(Top(p)) && !Starts(p.input, NOT)
    ensures Goes(s, p, d) && Arrives(p, d, ExprState(Top(p)), ReadPrimary(s, p.input))
    decreases |p.input|, 0
  {
    hide YyPact, Decide, Goes, ReadElement, Arrives;
    var ts := p.input;
    if Starts(ts, OPENB) {
      StartTable(Top(p), OPENB);
      ShiftStep(s, p, 17);
      var p1 := Step(s, p);
      var c := ExpressionRuns(s, p1);
      OperatorsAreTaken(s, ts[1..]);
      GoesOn(s, p, p1, c);
      d := BracketsDone(s, p, p1, c, ReadExpression(s, ts[1..]));
      GoesOn(s, p, c, d);
    } else {
      d := ElementRuns(s, p);
    }
  }

  lemma {:induction false} ExpressionRuns(s: Session, p: Parser) returns (d: Parser)
    requires Ready(p) && Begins(Top(p))
    ensures Goes(s, p, d) && Arrives(p, d, ExprState(Top(p)), ReadExpression(s, p.input))
    decreases |p.input|, 1
  {
    hide YyPact, Decide, Goes, ReadPrimary;
    var ts := p.input;
    if Starts(ts, NOT) {
      StartTable(Top(p), NOT);
      ShiftStep(s, p, 16);
      var p1 := Step(s, p);
      var c := ExpressionRuns(s, p1);
      OperatorsAreTaken(s, ts[1..]);
      GoesOn(s, p, p1, c);
      d := OperandDone(s, p, p1, c, 33, ReadExpression(s, ts[1..]));
      GoesOn(s, p, c, d);
    } else {
      var c := PrimaryRuns(s, p);
      var r := ReadPrimary(s, ts);
      if r.Ok? && Starts(r.rest, LOGOP) {
        d := OperatorRuns(s, p, c, r.value, r.rest);
        GoesOn(s, p, c, d);
      } else {
        d := c;
      }
    }
  }

  lemma {:induction false} OperatorRuns(s: Session, p: Parser, c: Parser, v: int, rest: seq<Token>) returns (d: Parser)
    requires Live(p) && Begins(Top(p)) && Landed(p, c, ExprState(Top(p)), v, rest) && Starts(rest, LOGOP)
    ensures Goes(s, c, d)
    ensures Arrives(p, d, ExprState(Top(p)),
              match ReadExpression(s, rest[1..]) case Fail => Fail
                  case Ok(w, last) => Ok(Logic(v, rest[0].value, w), last))
    decreases |rest|, 0
  {
    hide YyPact, Decide, Goes, ReadExpression, Logic, Arrives;
    AfterTable(ExprState(Top(p)), LOGOP);
    ShiftStep(s, c, 36);
    var p2 := Step(s, c);
    var e := ExpressionRuns(s, p2);
    OperatorsAreTaken(s, rest[1..]);
    GoesOn(s, c, p2, e);
    d := OperandDone(s, p, p2, e, 43, ReadExpression(s, rest[1..]));
    GoesOn(s, c, e, d);
  }

  // ---------------------------------------------------------------------------
  // The parser
  // ---------------------------------------------------------------------------

  // What yyparse has left behind: accepted with expr_result, or rejected.
  predicate Agrees(d: Parser, expected: Option<int>) {
    match expected
    case None => d.status == Rejected
    case Some(v) => d.status == Accepted && d.result == v
  }

  // For every token sequence the machine stops; it accepts exactly the expressions, with
  // the value of the recursive reading.
  lemma ParserEvaluates(s: Session, ts: seq<Token>) returns (n: nat)
    ensures Agrees(Steps(s, NewParser(ts), n), Evaluate(s, ts))
  {
    hide YyPact, Decide, Default, Goto, YyR1, YyR2, ReadExpression, Goes;
    var p := NewParser(ts);
    var c := ExpressionRuns(s, p);
    var r := ReadExpression(s, ts);
    OperatorsAreTaken(s, ts);
    var d := c;
    if c.status != Rejected {
      var e := LineDone(s, p, c);
      d := Step(s, e);
      GoesStep(s, e);
      GoesOn(s, c, e, d);
    } else {
      GoesNowhere(s, c);
    }
    GoesOn(s, p, c, d);
    n := StepsTo(s, p, d);
  }

  lemma StepsTo(s: Session, p: Parser, d: Parser) returns (n: nat)
    requires Goes(s, p, d)
    ensures Steps(s, p, n) == d
  {
    n :| Steps(s, p, n) == d;
  }

  // The expression is taken for a full line; then only the end of the input will do.
  lemma LineDone(s: Session, p: Parser, c: Parser) returns (e: Parser)
    requires p.stack == [Frame(0, 0)] && Live(c) && |c.stack| == 2 && c.stack[0] == Frame(0, 0) && Top(c) == 19
    requires !Starts(Upcoming(c), LOGOP)
    ensures Goes(s, c, e) && Live(e) && e.result == c.stack[1].value
    ensures Step(s, e).status == (if Upcoming(c) == [] then Accepted else Rejected) && Step(s, e).result == e.result
  {
    hide YyPact, Decide, Default, Goto, YyR1, YyR2, Goes;
    AfterTable(19, Kind(Upcoming(c)));
    LineTable(Kind(Upcoming(c)));
    RuleTable();
    ReduceStep(s, c, 2);
    e := Step(s, c);
    assert c.stack[..1] == [Frame(0, 0)];
  }

  // ---------------------------------------------------------------------------
  // What values there are
  // ---------------------------------------------------------------------------

  // The element checks answer false, true, unknown (-1) or invalid (-2).
  ghost predicate Answers(s: Session) {
    && (forall c: Check, t: nat :: -2 <= s.check(c, t) <= 1)
    && (forall c: Check, t: nat :: c != CheckAddr && c != CheckTime ==> s.check(c, t) != -2)
  }

  predicate Truth(v: int) {
    v == -1 || v == 0 || v == 1
  }

  // yylval of a TEXT token is its own number.
  predicate Lexed(ts: seq<Token>) {
    forall i :: 0 <= i < |ts| && ts[i].kind == TEXT ==> ts[i].value > 0
  }

  // A list of two or more flags or times is true whatever they are, if its last time is valid.
  lemma {:induction false} LongListsAreTrue(s: Session, check: Check, ts: seq<Token>)
    requires Lexed(ts) && Starts(ts, TEXT) && Starts(ts[1..], COMMA)
    ensures var r := ReadList(s, check, ts); r.Ok? ==> r.value == 1
  {
    assert ts[0].value > 0;
  }

  // A list as it is meant: the texts of its entries, and whether any of them is true.
  function Entries(ts: seq<Token>): (texts: seq<nat>)
    ensures Starts(ts, TEXT) ==> texts != []
    decreases |ts|
  {
    if !Starts(ts, TEXT) then []
    else if Starts(ts[1..], COMMA) then [ts[0].text] + Entries(ts[2..])
    else [ts[0].text]
  }

  predicate AnyTrue(s: Session, check: Check, texts: seq<nat>) {
    exists i :: 0 <= i < |texts| && s.check(check, texts[i]) > 0
  }

  // A list has the value it is meant to have exactly if it has one entry or some entry is true.
  lemma ListsAsMeant(s: Session, check: Check, ts: seq<Token>)
    requires Lexed(ts)
    ensures var r := ReadList(s, check, ts);
            var meant := AnyTrue(s, check, Entries(ts));
            r.Ok? ==> ((r.value > 0) == meant <==> |Entries(ts)| == 1 || meant)
  {
    var r := ReadList(s, check, ts);
    if r.Ok? {
      if Starts(ts[1..], COMMA) {
        LongListsAreTrue(s, check, ts);
        LastFollows(s, check, ts);
        assert |Entries(ts)| >= 2;
      } else {
        assert Entries(ts) == [ts[0].text];
        assert AnyTrue(s, check, Entries(ts)) <==> s.check(check, Entries(ts)[0]) > 0;
      }
    }
  }

  // A comma is followed by another entry.
  lemma LastFollows(s: Session, check: Check, ts: seq<Token>)
    requires ReadList(s, check, ts).Ok? && Starts(ts[1..], COMMA)
    ensures Starts(ts[2..], TEXT)
  {
  }

  lemma {:induction false} ListTruth(s: Session, check: Check, ts: seq<Token>)
    requires Answers(s) && (check == CheckFlag || check == CheckTime)
    ensures var r := ReadList(s, check, ts); r.Ok? ==> Truth(r.value)
    decreases |ts|
  {
    if Starts(ts, TEXT) && Starts(ts[1..], COMMA) {
      ListTruth(s, check, ts[2..]);
    }
  }

  lemma ElementTruth(s: Session, ts: seq<Token>)
    requires Answers(s)
    ensures var r := ReadElement(s, ts); r.Ok? ==> Truth(r.value)
  {
    hide ReadList;
    if ts != [] {
      ListTruth(s, CheckFlag, ts[1..]);
      ListTruth(s, CheckTime, ts[1..]);
    }
  }

  // No expression is ever invalid or anything but true, false or unknown; an operator or
  // NOT makes an unknown operand count as false.
  lemma {:induction false} ExpressionTruth(s: Session, ts: seq<Token>)
    requires Answers(s)
    ensures var r := ReadExpression(s, ts); r.Ok? ==> Truth(r.value)
    ensures var r := ReadPrimary(s, ts); r.Ok? ==> Truth(r.value)
    decreases |ts|
  {
    hide ReadElement;
    ElementTruth(s, ts);
    if Starts(ts, NOT) || Starts(ts, OPENB) {
      ExpressionTruth(s, ts[1..]);
    }
    var r := ReadPrimary(s, ts);
    if r.Ok? && Starts(r.rest, LOGOP) {
      ExpressionTruth(s, r.rest[1..]);
    }
  }
}
