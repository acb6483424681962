// yyparse over its stacks of states and of values (source/bforce/expression.tab.c), which grow up
// to YYMAXDEPTH.
module ExpressionStacks {
  import opened Wrappers
  import opened Expression
  import opened ExpressionParser

  const YYINITDEPTH := 200
  const YYMAXDEPTH := 10000

  // ---------------------------------------------------------------------------
  // How deep the stacks get
  // ---------------------------------------------------------------------------

  // The end of the input is never shifted, and every rule takes something off the stack.
  lemma EndNotShifted(q: int)
    ensures !Decide(q, 0).Shift?
  {
    hide YyDefact;
  }

  lemma RulesTake(q: int)
    ensures YyDefact(q) != 0 ==> YyR2(YyDefact(q)) >= 1
  {
  }

  lemma ReducedDepth(s: Session, p: Parser, rule: int)
    requires YyR2(rule) >= 1
    ensures |Reduced(s, p, rule).stack| <= |p.stack| && Upcoming(Reduced(s, p, rule)) == Upcoming(p)
  {
    hide Value, YyR2, YyR1, Goto;
  }

  lemma PerformDepth(s: Session, p: Parser, a: Action)
    requires a.Shift? ==> p.look.Tok?
    requires a.Reduce? ==> YyR2(a.rule) >= 1
    ensures |Perform(s, p, a).stack| + |Upcoming(Perform(s, p, a))| <= |p.stack| + |Upcoming(p)|
  {
    hide Reduced, YyR2;
    if a.Reduce? {
      ReducedDepth(s, p, a.rule);
    }
  }

  // Every frame but the first stands for at least one token: frames and tokens to come do not
  // grow in number.
  lemma StepDepth(s: Session, p: Parser)
    ensures |Step(s, p).stack| + |Upcoming(Step(s, p))| <= |p.stack| + |Upcoming(p)|
  {
    hide Perform, YyPact, YyDefact, YyR2, YyTable, YyCheck;
    if p.status == Running {
      var q := Read(p);
      RulesTake(Top(p));
      EndNotShifted(Top(p));
      PerformDepth(s, p, Default(Top(p)));
      PerformDepth(s, q, Decide(Top(q), LookSymbol(q.look)));
    }
  }

  // ---------------------------------------------------------------------------
  // The procedure
  // ---------------------------------------------------------------------------

  function Frames(states: seq<int>, values: seq<int>): (f: seq<Frame>)
    requires |states| == |values|
    ensures |f| == |states| && forall i :: 0 <= i < |f| ==> f[i] == Frame(states[i], values[i])
  {
    seq(|states|, i requires 0 <= i < |states| => Frame(states[i], values[i]))
  }

  lemma Popped(states: seq<int>, values: seq<int>, n: nat)
    requires |states| == |values| && 0 < n <= |states|
    ensures Frames(states, values)[..n] == Frames(states[..n], values[..n])
    ensures Frames(states, values)[n - 1].state == states[n - 1]
  {
  }

  class YyParser {
    var yyss: array<int>     // the state stack
    var yyvs: array<int>     // the value stack
    var depth: nat           // how far they are filled
    var look: Look           // yychar and yylval
    var input: seq<Token>    // what yylex has still to return
    var text: nat            // expr_p_text
    var result: int          // expr_result
    const session: Session

    ghost predicate Valid()
      reads this, yyss, yyvs
    {
      && yyss != yyvs && yyss.Length == yyvs.Length <= YYMAXDEPTH
      && 0 < depth < yyss.Length
    }

    ghost function Stack(): (f: seq<Frame>)
      reads this, yyss, yyvs
      requires depth <= yyss.Length && depth <= yyvs.Length
    {
      Frames(yyss[..depth], yyvs[..depth])
    }

    // The machine this object is
    ghost function Now(status: Status): Parser
      reads this, yyss, yyvs
      requires depth <= yyss.Length && depth <= yyvs.Length
    {
      Parser(Stack(), look, input, text, result, status)
    }

    constructor (s: Session, tokens: seq<Token>)
      ensures Valid() && Now(Running) == NewParser(tokens) && session == s && fresh(yyss) && fresh(yyvs)
    {
      session := s;
      yyss, yyvs := new int[YYINITDEPTH](_ => 0), new int[YYINITDEPTH](_ => 0);
      depth, look, input, text, result := 1, Empty, tokens, 0, 0;
    }

    // A new state is put on the stack with its value; a full stack is moved to a larger one.
    method Push(state: int, value: int) returns (overflow: bool)
      requires Valid()
      modifies this`yyss, this`yyvs, this`depth, yyss, yyvs
      ensures depth == old(depth) + 1 && depth <= yyss.Length == yyvs.Length
      ensures Stack() == old(Stack()) + [Frame(state, value)]
      ensures if overflow then depth == YYMAXDEPTH else Valid()
      ensures (yyss == old(yyss) && yyvs == old(yyvs)) || (fresh(yyss) && fresh(yyvs))
    {
      yyss[depth], yyvs[depth] := state, value;
      depth := depth + 1;
      overflow := false;
      if depth == yyss.Length {
        if yyss.Length == YYMAXDEPTH {
          return true;
        }
        var size := if 2 * yyss.Length < YYMAXDEPTH then 2 * yyss.Length else YYMAXDEPTH;
        yyss := Moved(yyss, depth, size);
        yyvs := Moved(yyvs, depth, size);
      }
    }

    // YYSTACK_RELOCATE
    static method Moved(a: array<int>, n: nat, size: nat) returns (b: array<int>)
      requires n <= a.Length && n <= size
      ensures fresh(b) && b.Length == size && b[..n] == a[..n]
    {
      b := new int[size](_ => 0);
      for i := 0 to n
        invariant forall j :: 0 <= j < i ==> b[j] == a[j]
      {
        b[i] := a[i];
      }
    }

    // yyreduce
    method ReduceBy(rule: int) returns (status: Status, overflow: bool)
      requires Valid() && YyR2(rule) >= 1
      modifies this`yyss, this`yyvs, this`depth, this`result, yyss, yyvs
      ensures depth <= yyss.Length == yyvs.Length && Now(status) == Reduced(session, old(Now(Running)), rule)
      ensures if overflow then depth == YYMAXDEPTH && status == Running else Valid()
      ensures (yyss == old(yyss) && yyvs == old(yyvs)) || (fresh(yyss) && fresh(yyvs))
    {
      hide Value, YyR2, YyR1, Goto, Frames, At, Back;
      ghost var p := Now(Running);
      BackIs(0);
      BackIs(1);
      BackIs(2);
      status, overflow := Rejected, false;
      var n := depth - YyR2(rule);
      if n <= 0 {
        return;
      }
      var v := Value(session, rule, Back(0), Back(1), Back(2), text);
      if v == None {
        return;
      }
      status := Running;
      if rule == 2 {
        result := v.value;
      }
      Popped(yyss[..depth], yyvs[..depth], n);
      assert yyss[..depth][..n] == yyss[..n] && yyvs[..depth][..n] == yyvs[..n];
      depth := n;
      assert Now(Running) == p.(stack := p.stack[..n], result := result);
      overflow := Push(Goto(yyss[n - 1], YyR1(rule)), v.value);
    }

    // yyvsp[-k]
    function Back(k: nat): int
      reads this, yyvs
    {
      if k < depth <= yyvs.Length then yyvs[depth - 1 - k] else 0
    }

    lemma BackIs(k: nat)
      requires Valid()
      ensures Back(k) == At(Stack(), k)
    {
    }

    // yylex, unless there is a token already
    method Lex()
      requires Valid()
      modifies this`look, this`input, this`text
      ensures Valid() && Now(Running) == Read(old(Now(Running)))
    {
      hide Frames;
      if look == Empty {
        if input == [] {
          look := End;
        } else {
          look, input := Tok(input[0]), input[1..];
          if look.token.kind == TEXT || look.token.kind == NUMBER {
            text := look.token.text;
          }
        }
      }
    }

    method Act(action: Action) returns (status: Status, overflow: bool)
      requires Valid() && (action.Reduce? ==> YyR2(action.rule) >= 1)
      modifies this`yyss, this`yyvs, this`depth, this`look, this`result, yyss, yyvs
      ensures depth <= yyss.Length == yyvs.Length && Now(status) == Perform(session, old(Now(Running)), action)
      ensures if overflow then depth == YYMAXDEPTH && status == Running else Valid()
      ensures (yyss == old(yyss) && yyvs == old(yyvs)) || (fresh(yyss) && fresh(yyvs))
    {
      hide YyR2, Reduced, Frames;
      status, overflow := Running, false;
      match action {
        case Shift(next) =>
          var value := if look.Tok? then look.token.value else 0;
          if look.Tok? {
            look := Empty;
          }
          overflow := Push(next, value);
        case Reduce(rule) => status, overflow := ReduceBy(rule);
        case Accept => status := Accepted;
        case Error => status := Rejected;
      }
    }

    // One turn from yynewstate
    method Turn() returns (status: Status, overflow: bool)
      requires Valid()
      modifies this`yyss, this`yyvs, this`depth, this`look, this`input, this`text, this`result, yyss, yyvs
      ensures depth <= yyss.Length == yyvs.Length && Now(status) == Step(session, old(Now(Running)))
      ensures if overflow then depth == YYMAXDEPTH && status == Running else Valid()
      ensures (yyss == old(yyss) && yyvs == old(yyvs)) || (fresh(yyss) && fresh(yyvs))
    {
      hide YyPact, YyDefact, YyR2, YyTable, YyCheck, Perform, Read;
      var state := yyss[depth - 1];
      var action := Default(state);
      RulesTake(state);
      if YyPact(state) != NINF {
        Lex();
        ReadKeeps(old(Now(Running)));
        action := Decide(state, LookSymbol(look));
      }
      status, overflow := Act(action);
    }

    // The whole parse.  It ends because the run of the machine does: with 0 and the value of the
    // expression, with 1 if there is none, or with 2 if the text has at least 9999 tokens.
    method Parse() returns (code: int)
      requires Valid() && Now(Running) == NewParser(input)
      modifies this`yyss, this`yyvs, this`depth, this`look, this`input, this`text, this`result, yyss, yyvs
      ensures code == 2 ==> |old(input)| >= YYMAXDEPTH - 1
      ensures code != 2 ==>
                if Evaluate(session, old(input)).Some? then code == 0 && result == Evaluate(session, old(input)).value
                else code == 1
    {
      hide Step, Evaluate, Frames;
      ghost var p := Now(Running);
      ghost var n := ParserEvaluates(session, input);
      ghost var k := n;
      var status := Running;
      while status == Running
        invariant k <= n && Valid()
        invariant Steps(session, Now(status), k) == Steps(session, p, n)
        invariant |Stack()| + |Upcoming(Now(status))| <= 1 + |old(input)|
        invariant (yyss == old(yyss) && yyvs == old(yyvs)) || (fresh(yyss) && fresh(yyvs))
        decreases k
      {
        ghost var before := Now(Running);
        StillParsing(session, before, k);
        StepDepth(session, before);
        var overflow;
        status, overflow := Turn();
        if overflow {
          return 2;
        }
        k := k - 1;
      }
      StoppedStays(session, Now(status), k);
      code := if status == Accepted then 0 else 1;
    }
  }

  lemma ReadKeeps(p: Parser)
    ensures Read(p).stack == p.stack && Read(p).result == p.result && Read(p).status == p.status
  {
  }

  // A run that is to stop has not stopped yet.
  lemma StillParsing(s: Session, p: Parser, k: nat)
    requires p.status == Running && p.stack != [] && Steps(s, p, k).status != Running
    ensures k > 0 && Steps(s, p, k) == Steps(s, Step(s, p), k - 1) && Step(s, p).stack != []
  {
  }

  lemma {:induction false} StoppedStays(s: Session, p: Parser, k: nat)
    requires p.status != Running
    ensures Steps(s, p, k) == p
    decreases k
  {
    if k > 0 {
      StoppedStays(s, p, k - 1);
    }
  }
}
