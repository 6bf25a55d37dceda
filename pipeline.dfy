/** The whole program: parse one line, differentiate the program with
    respect to "x", and evaluate the derivative with every identifier bound
    to one integer. */
module Pipeline {
  import opened Failures
  import opened Poliz
  import opened Duals
  import opened Lexing
  import opened Differentiation
  import opened Evaluation
  import opened Parsing

  /** The derivative the deriver builds for a parsed expression computes the
      expression's derivative by the binary sum, difference and product
      rules, and is itself a well-formed program. */
  lemma DerivativeOfParsed(e: Expr, wrt: string, x: int)
    ensures WellFormed(Compile(e))
    ensures Exec(Derivative(Compile(e), wrt), x, []) == Some([DEvalExpr(e, x, wrt).d])
    ensures WellFormed(Derivative(Compile(e), wrt)) && Height(Derivative(Compile(e), wrt), 0) == Some(1)
  {
    var p := Compile(e);
    CompileCorrect(e, x);
    DExecCompile(e, x, wrt, []);
    assert [] + [DEvalExpr(e, x, wrt)] == [DEvalExpr(e, x, wrt)];
    DeriveCorrect(p, wrt, x);
    DerivativeWellFormed(p, wrt);
  }

  /** Differentiates a parsed program with respect to "x" and evaluates
      the derivative at x. */
  method Slope(p: seq<Node>, ghost e: Expr, x: int) returns (v: int)
    requires p == Compile(e)
    ensures v == DEvalExpr(e, x, "x").d
  {
    DerivativeOfParsed(e, "x", x);
    var deriver := new Deriver();
    var derived := deriver.Derive(p, "x");
    var evaluator := new Evaluator(x);
    v := evaluator.Calculate(derived);
  }

  /** What a run on input at x may answer, e being the addition read: a
      value is the slope of an addition read up to END; excess text follows
      a complete addition and a token that cannot continue it; any other
      error is explained by the tokens read when it was raised, all taken
      without error but the last. */
  ghost predicate Reports(input: seq<char>, x: int, r: Result<int>, e: Expr)
  {
    (r.Ok? ==> IsAddition(e) && ReadFrom(input, Tokens(e) + [Token(End, "")]) && Walk(Tokens(e)) == Operator(0) &&
               r.value == DEvalExpr(e, x, "x").d) &&
    (r == Err(ExcessText) ==>
       IsAddition(e) && Walk(Tokens(e)) == Operator(0) &&
       exists t: Token :: t.kind !in {End, Plus, Minus, Mult} && ReadFrom(input, Tokens(e) + [t])) &&
    (r.Err? && r.error != ExcessText ==> exists ts :: Explains(r.error, e, input, ts))
  }

  /** Parses input, differentiates with respect to "x" and evaluates the
      derivative at x; the parse error when the input is rejected. */
  method Run(input: seq<char>, x: int) returns (r: Result<int>, ghost e: Expr)
    ensures Reports(input, x, r, e)
  {
    var parser := new Parser(input);
    var parsed;
    parsed, e := parser.ParseFull();
    if parsed.Err? {
      if parsed.error != ExcessText {
        assert Explains(parsed.error, e, input, parser.lex.trace);
      } else {
        assert ReadFrom(input, Tokens(e) + [parser.Current()]);
      }
      return Err(parsed.error), e;
    }
    var v := Slope(parsed.value, e, x);
    r := Ok(v);
  }

  // ---------------------------------------------------------------------
  // Worked examples

  /** What the program prints for the expression e at x, when e's program
      can be differentiated. */
  ghost function SlopeAt(e: Expr, x: int): Option<seq<int>>
  {
    if Derivable(Compile(e)) then Exec(Derivative(Compile(e), "x"), x, []) else None
  }

  /** What the program prints is the derivative by the binary rules. */
  lemma SlopeAtParsed(e: Expr, x: int)
    ensures SlopeAt(e, x) == Some([DEvalExpr(e, x, "x").d])
  {
    DerivativeOfParsed(e, "x", x);
  }

  /** d/dx (x*x) at 3 is 6. */
  lemma SquareSlope(e: Expr)
    requires e == Prod(Var("x"), Var("x"))
    ensures SlopeAt(e, 3) == Some([6])
  {
    SlopeAtParsed(e, 3);
  }

  /** d/dx (x*x*x) at 2 is 12: a three-factor product. */
  lemma CubeSlope(e: Expr)
    requires e == Prod(Prod(Var("x"), Var("x")), Var("x"))
    ensures SlopeAt(e, 2) == Some([12])
  {
    SlopeAtParsed(e, 2);
  }

  /** d/dx (x+x+x) is 3 everywhere: a three-term sum. */
  lemma TripleSumSlope(e: Expr, x: int)
    requires e == Sum(Sum(Var("x"), true, Var("x")), true, Var("x"))
    ensures SlopeAt(e, x) == Some([3])
  {
    SlopeAtParsed(e, x);
  }

  /** d/dx (2*x-x) is 1 everywhere. */
  lemma DifferenceSlope(e: Expr, x: int)
    requires e == Sum(Prod(Lit("2"), Var("x")), false, Var("x"))
    ensures SlopeAt(e, x) == Some([1])
  {
    assert DigitsValue("2") == 2 by {
      assert "2"[..0] == "";
    }
    assert DEvalExpr(e.left, x, "x") == Dual(2 * x, 2);
    SlopeAtParsed(e, x);
  }

  /** A constant has slope 0. */
  lemma ConstantSlope(e: Expr, x: int)
    requires e == Lit("5")
    ensures SlopeAt(e, x) == Some([0])
  {
    SlopeAtParsed(e, x);
  }

  /** Every identifier evaluates to the one input value, but only "x" has
      slope 1: d/dx (x*y) at 3 is y's value, 3. */
  lemma OtherNameSlope(e: Expr)
    requires e == Prod(Var("x"), Var("y"))
    ensures SlopeAt(e, 3) == Some([3])
  {
    SlopeAtParsed(e, 3);
  }

  // ---------------------------------------------------------------------
  // Rejected inputs

  /** One more token read from s: t, lexed from where the tokens ts end. */
  lemma ReadOn(s: seq<char>, ts: seq<Token>, j: nat, t: Token, n: nat)
    requires ReadFrom(s, ts) && LexesAs(s, Scan(s, |ts|).value.next, j, t, n)
    ensures ReadFrom(s, ts + [t]) && Scan(s, |ts + [t]|).value.next == n
  {
    var p := Scan(s, |ts|).value.next;
    LexComplete(s, p, j, t, n);
    ScanExtend(s, ts, p, t, n);
    assert |ts + [t]| == |ts| + 1;
  }

  /** When the tokens of s up to its END are ts, every token list read from
      s follows ts and then repeats END. */
  lemma ReadStream(s: seq<char>, ts: seq<Token>, us: seq<Token>)
    requires ReadFrom(s, ts) && ts != [] && ts[|ts| - 1] == Token(End, "")
    requires ReadFrom(s, us)
    ensures forall i :: 0 <= i < |us| ==> us[i] == if i < |ts| then ts[i] else Token(End, "")
  {
    if |us| <= |ts| {
      ScanPrefix(s, |ts|, |us|);
    } else {
      ScanPrefix(s, |us|, |ts|);
      forall i | 0 <= i < |us|
        ensures us[i] == if i < |ts| then ts[i] else Token(End, "")
      {
        if i >= |ts| {
          ReadBeyond(s, ts, us, i);
        } else {
          assert us[..|ts|][i] == us[i];
        }
      }
    }
  }

  /** Past the END of ts, every token read from s is END. */
  lemma ReadBeyond(s: seq<char>, ts: seq<Token>, us: seq<Token>, i: nat)
    requires ReadFrom(s, ts) && ts != [] && ts[|ts| - 1] == Token(End, "")
    requires ReadFrom(s, us) && |ts| <= i < |us|
    ensures us[i] == Token(End, "")
  {
    var p := Scan(s, |ts|).value.next;
    EndAgain(s, ts, p);
    EndsAfter(s, ts, p, |us|, i);
  }

  /** ... and reading never fails there. */
  lemma NeverFails(s: seq<char>, ts: seq<Token>, us: seq<Token>, err: Error)
    requires ReadFrom(s, ts) && ts != [] && ts[|ts| - 1] == Token(End, "")
    ensures !LexFailed(s, us, err)
  {
    var p := Scan(s, |ts|).value.next;
    EndAgain(s, ts, p);
    if Scan(s, |us|).Some? {
      var k := |us| + 1;
      if k <= |ts| {
        ScanPrefix(s, |ts|, k);
      } else {
        ScanAfterEnd(s, ts, p, k);
      }
      assert Scan(s, k).Some?;
      assert k - 1 == |us|;
    }
  }

  /** An addition followed by t, read from s whose tokens up to END are ts
      with no earlier END: an odd proper prefix of ts ending in an operand,
      and t next. */
  lemma ReadAddition(s: seq<char>, ts: seq<Token>, e: Expr, t: Token)
    requires ReadFrom(s, ts) && ts != [] && ts[|ts| - 1] == Token(End, "")
    requires forall i :: 0 <= i < |ts| - 1 ==> ts[i].kind != End
    requires ReadFrom(s, Tokens(e) + [t])
    ensures |Tokens(e)| % 2 == 1 && |Tokens(e)| < |ts|
    ensures ts[|Tokens(e)| - 1].kind in {Id, Num, Close} && t == ts[|Tokens(e)|]
  {
    TokensShape(e);
    var us := Tokens(e) + [t];
    var n := |Tokens(e)|;
    ReadStream(s, ts, us);
    if n >= |ts| {
      assert false;
    }
    assert us[n - 1] == Tokens(e)[n - 1];
    assert us[n] == t;
  }

  /** What an error explained by the tokens us read from s means when the
      tokens of s up to END are ts: no tokenizer error, and the facts each
      error stands on, found among ts. */
  lemma ExplainedAlong(s: seq<char>, ts: seq<Token>, err: Error, e: Expr, us: seq<Token>)
    requires ReadFrom(s, ts) && ts != [] && ts[|ts| - 1] == Token(End, "")
    requires Explains(err, e, s, us)
    ensures err == ExpectedFactor || err == ExpectedClose || err == ConversionError
    ensures err == ExpectedFactor ==>
              1 <= |us| <= |ts| && ts[|us| - 1].kind !in {Id, Num, Open} &&
              (|us| == 1 || ts[|us| - 2].kind in {Open, Plus, Minus, Mult})
    ensures err == ExpectedClose ==> 2 <= |us| <= |ts| && exists j, m :: m == |us| - 1 && UnclosedAt(ts, j, m)
    ensures err == ConversionError ==>
              1 <= |us| <= |ts| && ts[|us| - 1].kind == Num && DigitsValue(ts[|us| - 1].text) > IntMax
  {
    if err.LexError? {
      NeverFails(s, ts, us, err);
      assert false;
    }
    ReadStream(s, ts, us);
    if err == ExpectedFactor {
      WalkOperandStart(us[..|us| - 1]);
      if |us| > 1 {
        assert us[..|us| - 1][|us| - 2] == us[|us| - 2];
      }
    }
    if err == ExpectedClose {
      UnclosedAlong(s, ts, e, us);
    }
  }

  /** us are the tokens ts, cut short or continued by END. */
  ghost predicate Follows(us: seq<Token>, ts: seq<Token>)
  {
    forall i :: 0 <= i < |us| ==> us[i] == if i < |ts| then ts[i] else Token(End, "")
  }

  /** At m, after an OPEN at j and a balanced run of tokens, a token that
      neither closes the parentheses nor continues the addition inside. */
  predicate UnclosedAt(ts: seq<Token>, j: int, m: int)
  {
    0 <= j && j + 1 < m < |ts| && ts[j] == Token(Open, "(") && Balanced(ts[j + 1..m]) &&
    ts[m].kind !in {Close, Plus, Minus, Mult}
  }

  /** A missing CLOSE, explained by the tokens us, found among the tokens
      ts of the whole line. */
  lemma UnclosedAlong(s: seq<char>, ts: seq<Token>, e: Expr, us: seq<Token>)
    requires ReadFrom(s, ts) && ts != [] && ts[|ts| - 1] == Token(End, "")
    requires Explains(ExpectedClose, e, s, us)
    ensures 2 <= |us| <= |ts| && UnclosedAt(ts, |us| - 2 - |Tokens(e)|, |us| - 1)
  {
    ReadStream(s, ts, us);
    UnclosedExpr(ts, us, e);
  }

  /** The same once us is known to follow ts. */
  lemma UnclosedExpr(ts: seq<Token>, us: seq<Token>, e: Expr)
    requires ts != [] && ts[|ts| - 1] == Token(End, "") && Follows(us, ts)
    requires us != [] && us[|us| - 1].kind !in {Close, Plus, Minus, Mult}
    requires EndsWith(us[..|us| - 1], [Token(Open, "(")] + Tokens(e))
    ensures 2 <= |us| <= |ts| && UnclosedAt(ts, |us| - 2 - |Tokens(e)|, |us| - 1)
  {
    TokensNoEnd(e);
    TokensBalanced(e);
    UnclosedAmong(ts, us, Tokens(e));
  }

  /** The same on the tokens alone: us follows ts and then repeats END, and
      before its last token ends in OPEN and the tokens u of an expression. */
  lemma UnclosedAmong(ts: seq<Token>, us: seq<Token>, u: seq<Token>)
    requires ts != [] && ts[|ts| - 1] == Token(End, "") && Follows(us, ts)
    requires us != [] && us[|us| - 1].kind !in {Close, Plus, Minus, Mult}
    requires EndsWith(us[..|us| - 1], [Token(Open, "(")] + u)
    requires u != [] && u[|u| - 1].kind != End && Balanced(u)
    ensures 2 <= |us| <= |ts| && UnclosedAt(ts, |us| - 2 - |u|, |us| - 1)
  {
    var k := |us| - 1;
    var front := us[..k];
    var b := [Token(Open, "(")] + u;
    var j := |front| - |b|;
    assert front[j..] == b;
    assert us[k - 1] == front[|front| - 1] == b[|b| - 1];
    assert |us| <= |ts|;
    assert us[j] == front[j..][0];
    assert us[j + 1..k] == front[j..][1..] == u;
    assert ts[j + 1..k] == us[j + 1..k];
  }

  /** What each answer of a run needs of the tokens ts of its input, up to
      and including its only END: a value needs an odd number of tokens
      before END; excess text an odd prefix ending in an operand, followed by
      a token that cannot continue it; a missing factor a token that is no
      operand where one must begin; a missing CLOSE an OPEN, a balanced run
      and a token that cannot follow it inside parentheses; an overflow a
      number above IntMax. A tokenizer error cannot happen. */
  ghost predicate AnswerFits(ts: seq<Token>, r: Result<int>)
  {
    (r.Ok? ==> |ts| % 2 == 0) &&
    (r == Err(ExcessText) ==>
       exists n :: 0 < n < |ts| - 1 && n % 2 == 1 && ts[n - 1].kind in {Id, Num, Close} &&
                   ts[n].kind !in {End, Plus, Minus, Mult}) &&
    (r.Err? ==> r.error in {ExcessText, ExpectedFactor, ExpectedClose, ConversionError}) &&
    (r == Err(ExpectedFactor) ==>
       exists m :: 0 <= m < |ts| && ts[m].kind !in {Id, Num, Open} &&
                   (m == 0 || ts[m - 1].kind in {Open, Plus, Minus, Mult})) &&
    (r == Err(ExpectedClose) ==> exists j, m :: UnclosedAt(ts, j, m)) &&
    (r == Err(ConversionError) ==>
       exists m :: 0 <= m < |ts| && ts[m].kind == Num && DigitsValue(ts[m].text) > IntMax)
  }

  /** Whatever a run answers fits the tokens of its input. */
  lemma RejectedAlong(s: seq<char>, ts: seq<Token>, x: int, r: Result<int>, e: Expr)
    requires ReadFrom(s, ts) && ts != [] && ts[|ts| - 1] == Token(End, "")
    requires forall i :: 0 <= i < |ts| - 1 ==> ts[i].kind != End
    requires Reports(s, x, r, e)
    ensures AnswerFits(ts, r)
  {
    ParsedAlong(s, ts, x, r, e);
    ErrorAlong(s, ts, x, r, e);
  }

  /** What a value or excess text says about an input whose tokens up to
      its only END are ts: a value needs an odd number of tokens before END;
      excess text needs an odd prefix ending in an operand, followed by a
      token that cannot continue it. */
  lemma ParsedAlong(s: seq<char>, ts: seq<Token>, x: int, r: Result<int>, e: Expr)
    requires ReadFrom(s, ts) && ts != [] && ts[|ts| - 1] == Token(End, "")
    requires forall i :: 0 <= i < |ts| - 1 ==> ts[i].kind != End
    requires Reports(s, x, r, e)
    ensures r.Ok? ==> |ts| % 2 == 0
    ensures r == Err(ExcessText) ==>
              exists n :: 0 < n < |ts| - 1 && n % 2 == 1 && ts[n - 1].kind in {Id, Num, Close} &&
                          ts[n].kind !in {End, Plus, Minus, Mult}
  {
    if r.Ok? {
      ValueAlong(s, ts, e);
    } else if r.error == ExcessText {
      var t: Token :| t.kind !in {End, Plus, Minus, Mult} && ReadFrom(s, Tokens(e) + [t]);
      ExcessAlong(s, ts, e, t);
    }
  }

  /** An addition e read up to END, found among the tokens ts of the whole
      line: all of them but END. */
  lemma ValueAlong(s: seq<char>, ts: seq<Token>, e: Expr)
    requires ReadFrom(s, ts) && ts != [] && ts[|ts| - 1] == Token(End, "")
    requires forall i :: 0 <= i < |ts| - 1 ==> ts[i].kind != End
    requires ReadFrom(s, Tokens(e) + [Token(End, "")])
    ensures |ts| % 2 == 0
  {
    ReadAddition(s, ts, e, Token(End, ""));
  }

  /** Excess text t after the tokens of e, found among the tokens ts of the
      whole line. */
  lemma ExcessAlong(s: seq<char>, ts: seq<Token>, e: Expr, t: Token)
    requires ReadFrom(s, ts) && ts != [] && ts[|ts| - 1] == Token(End, "")
    requires forall i :: 0 <= i < |ts| - 1 ==> ts[i].kind != End
    requires t.kind !in {End, Plus, Minus, Mult} && ReadFrom(s, Tokens(e) + [t])
    ensures exists n :: 0 < n < |ts| - 1 && n % 2 == 1 && ts[n - 1].kind in {Id, Num, Close} &&
                        ts[n].kind !in {End, Plus, Minus, Mult}
  {
    ReadAddition(s, ts, e, t);
    assert ts[|Tokens(e)|].kind !in {End, Plus, Minus, Mult};
  }

  /** What any other error says about an input whose tokens up to END are
      ts: it is no tokenizer error, and the tokens it stands on are among
      ts. */
  lemma ErrorAlong(s: seq<char>, ts: seq<Token>, x: int, r: Result<int>, e: Expr)
    requires ReadFrom(s, ts) && ts != [] && ts[|ts| - 1] == Token(End, "")
    requires Reports(s, x, r, e)
    ensures r.Err? ==> r.error in {ExcessText, ExpectedFactor, ExpectedClose, ConversionError}
    ensures r == Err(ExpectedFactor) ==>
              exists m :: 0 <= m < |ts| && ts[m].kind !in {Id, Num, Open} &&
                          (m == 0 || ts[m - 1].kind in {Open, Plus, Minus, Mult})
    ensures r == Err(ExpectedClose) ==> exists j, m :: UnclosedAt(ts, j, m)
    ensures r == Err(ConversionError) ==>
              exists m :: 0 <= m < |ts| && ts[m].kind == Num && DigitsValue(ts[m].text) > IntMax
  {
    if r.Err? && r.error != ExcessText {
      var us :| Explains(r.error, e, s, us);
      ExplainedAlong(s, ts, r.error, e, us);
      if r.error == ConversionError {
        assert ts[|us| - 1].kind == Num;
      }
    }
  }

  // ---------------------------------------------------------------------
  // One answer per line

  /** The tokens w read from s settle a run with answer r: the descent
      accepts them with a value, or stops on the last of them with the error
      that token is blamed for, or is still live where the tokenizer fails. */
  ghost predicate Settles(s: seq<char>, w: seq<Token>, r: Result<int>)
  {
    ReadFrom(s, w) && WalkEnds(w, r) && (r.Err? && r.error.LexError? ==> LexFailed(s, w, r.error))
  }

  /** The walk's side of settling: accepted for a value, still live for a
      lexical error, stuck on the last token with the error Blame names. */
  predicate WalkEnds(w: seq<Token>, r: Result<int>)
  {
    if r.Ok? then Walk(w) == Accepted
    else if r.error.LexError? then Live(Walk(w))
    else w != [] && Live(Walk(w[..|w| - 1])) && Walk(w) == Stuck && Blame(Walk(w[..|w| - 1]), w[|w| - 1]) == r.error
  }

  /** Whatever a run answers is settled by some tokens of its line. */
  lemma ReportsSettle(s: seq<char>, x: int, r: Result<int>, e: Expr)
    requires Reports(s, x, r, e)
    ensures exists w :: Settles(s, w, r)
  {
    if r.Ok? {
      AfterAddition(s, Tokens(e), Token(End, ""), r);
    } else if r.error == ExcessText {
      var t: Token :| t.kind !in {End, Plus, Minus, Mult} && ReadFrom(s, Tokens(e) + [t]);
      AfterAddition(s, Tokens(e), t, r);
    } else {
      var us :| Explains(r.error, e, s, us);
      ExplainedSettles(s, r.error, e, us);
    }
  }

  /** A whole addition u followed by END settles with a value, and followed
      by a token that cannot continue it, with excess text. */
  lemma AfterAddition(s: seq<char>, u: seq<Token>, t: Token, r: Result<int>)
    requires ReadFrom(s, u + [t]) && Walk(u) == Operator(0)
    requires r.Ok? <==> t.kind == End
    requires r.Err? ==> r.error == ExcessText && t.kind !in {End, Plus, Minus, Mult}
    ensures Settles(s, u + [t], r)
  {
    var w := u + [t];
    assert w[..|w| - 1] == u;
  }

  /** An error explained by the tokens us is the one us settles on. */
  lemma ExplainedSettles(s: seq<char>, err: Error, e: Expr, us: seq<Token>)
    requires Explains(err, e, s, us)
    ensures Settles(s, us, Err(err))
  {
    if !err.LexError? {
      var p := Walk(us[..|us| - 1]);
      var t := us[|us| - 1];
      StuckOn(p, t, err);
    }
  }

  /** Each parse error stops the descent in the phase that raises it. */
  lemma StuckOn(p: Phase, t: Token, err: Error)
    requires (p.Operand? && err == ExpectedFactor && t.kind !in {Id, Num, Open}) ||
             (p.Operand? && err == ConversionError && t.kind == Num && DigitsValue(t.text) > IntMax) ||
             (p.Operator? && p.depth > 0 && err == ExpectedClose && t.kind !in {Close, Plus, Minus, Mult})
    ensures Live(p) && Shift(p, t) == Stuck && Blame(p, t) == err
  {
  }

  /** Two settlings of one line agree: a value against a value, and the same
      error. The shorter w1 is a prefix of w2; the descent cannot go on past
      a settled point, nor the tokenizer past a failure. */
  lemma SettlesOnce(s: seq<char>, w1: seq<Token>, r1: Result<int>, w2: seq<Token>, r2: Result<int>)
    requires Settles(s, w1, r1) && Settles(s, w2, r2) && |w1| <= |w2|
    ensures (r1.Ok? <==> r2.Ok?) && (r1.Err? ==> r1 == r2)
  {
    ScanPrefix(s, |w2|, |w1|);
    assert w2[..|w1|] == w1;
    if r1.Ok? || !r1.error.LexError? {
      WalkAgree(w1, r1, w2, r2);
    } else if |w1| < |w2| {
      ScanPrefix(s, |w2|, |w1| + 1);
      assert false;
    }
  }

  /** A walk that has ended with a value or a parse error ends every longer
      run of tokens it begins the same way. */
  lemma WalkAgree(w1: seq<Token>, r1: Result<int>, w2: seq<Token>, r2: Result<int>)
    requires WalkEnds(w1, r1) && WalkEnds(w2, r2) && |w1| <= |w2| && w2[..|w1|] == w1
    requires r1.Ok? || !r1.error.LexError?
    ensures (r1.Ok? <==> r2.Ok?) && (r1.Err? ==> r1 == r2)
  {
    WalkSettled(w2, |w1|);
    if |w1| == |w2| {
      assert w2 == w2[..|w1|];
    } else if r1.Err? {
      var front := w2[..|w2| - 1];
      assert front[..|w1|] == w1;
      WalkSettled(front, |w1|);
    }
  }

  /** The answer to a line is decided by its tokens: a run answers with a
      value exactly when the line settles with one, and otherwise with the
      error the line settles on. */
  lemma Decided(s: seq<char>, x: int, r: Result<int>, e: Expr, w: seq<Token>, r': Result<int>)
    requires Reports(s, x, r, e) && Settles(s, w, r')
    ensures (r.Ok? <==> r'.Ok?) && (r'.Err? ==> r == r')
  {
    ReportsSettle(s, x, r, e);
    var v :| Settles(s, v, r);
    if |v| <= |w| {
      SettlesOnce(s, v, r, w, r');
    } else {
      SettlesOnce(s, w, r', v, r);
    }
  }

  /** Two runs on one line give the same error, or both a value. */
  lemma OneAnswer(s: seq<char>, x: int, r1: Result<int>, e1: Expr, r2: Result<int>, e2: Expr)
    requires Reports(s, x, r1, e1) && Reports(s, x, r2, e2)
    ensures (r1.Ok? <==> r2.Ok?) && (r1.Err? ==> r1 == r2)
  {
    ReportsSettle(s, x, r2, e2);
    var w :| Settles(s, w, r2);
    Decided(s, x, r1, e1, w, r2);
  }

  /** The numerals of the rejected lines below are within range. */
  lemma SmallNumerals()
    ensures DigitsValue("1") == 1 && DigitsValue("2") == 2
  {
    assert "1"[..0] == "";
    assert "2"[..0] == "";
  }

  // Eight rejected lines, each read first into its tokens.

  /** A line starting with the digit 1 and no second digit reads first as the number 1. */
  lemma OneLead(s: seq<char>)
    requires |s| > 1 && s[0] == '1' && !IsDigit(CharAt(s, 1))
    ensures ReadFrom(s, [Token(Num, "1")]) && Scan(s, 1).value.next == 1
  {
    NumberLexes(s, 0, 0, 1);
    assert s[0..1] == "1";
    ReadOn(s, [], 0, Token(Num, "1"), 1);
  }

  /** A line starting "1 2" and no further digit reads first as two numbers. */
  lemma TwoNumbersLead(s: seq<char>)
    requires |s| > 3 && s[..3] == "1 2" && !IsDigit(CharAt(s, 3))
    ensures ReadFrom(s, [Token(Num, "1"), Token(Num, "2")]) && Scan(s, 2).value.next == 3
  {
    assert s[0] == "1 2"[0] && s[1] == "1 2"[1] && s[2] == "1 2"[2];
    OneLead(s);
    NumberLexes(s, 1, 2, 3);
    assert s[2..3] == "2";
    ReadOn(s, [Token(Num, "1")], 2, Token(Num, "2"), 3);
  }

  /** "1 2" reads as two numbers, then END. */
  lemma TwoNumbersTokens(s: seq<char>)
    requires s == "1 2\n"
    ensures ReadFrom(s, [Token(Num, "1"), Token(Num, "2"), Token(End, "")])
  {
    assert s[..3] == "1 2";
    TwoNumbersLead(s);
    ReadOn(s, [Token(Num, "1"), Token(Num, "2")], 3, Token(End, ""), 3);
  }

  /** A second number after a complete expression is excess text. */
  lemma TwoNumbersRejected(input: seq<char>, x: int, r: Result<int>, e: Expr)
    requires input == "1 2\n" && Reports(input, x, r, e)
    ensures r == Err(ExcessText)
  {
    TwoNumbersTokens(input);
    TwoNumbersRead(input, x, r, e);
  }

  /** The answer to a line whose tokens are those of "1 2", from its tokens alone. */
  lemma TwoNumbersRead(s: seq<char>, x: int, r: Result<int>, e: Expr)
    requires ReadFrom(s, [Token(Num, "1"), Token(Num, "2"), Token(End, "")]) && Reports(s, x, r, e)
    ensures r == Err(ExcessText)
  {
    RejectedAlong(s, [Token(Num, "1"), Token(Num, "2"), Token(End, "")], x, r, e);
    TwoNumbersAnswer(r);
  }

  /** The one answer that fits the tokens of "1 2". */
  lemma TwoNumbersAnswer(r: Result<int>)
    requires AnswerFits([Token(Num, "1"), Token(Num, "2"), Token(End, "")], r)
    ensures r == Err(ExcessText)
  {
    SmallNumerals();
  }

  /** Two numbers in a row settle a line with excess text: the descent
      stops at the second, with the first a whole addition. */
  lemma TwoNumbersSettle(s: seq<char>)
    requires ReadFrom(s, [Token(Num, "1"), Token(Num, "2")])
    ensures Settles(s, [Token(Num, "1"), Token(Num, "2")], Err(ExcessText))
  {
    SmallNumerals();
    var w := [Token(Num, "1"), Token(Num, "2")];
    assert w[..1] == [Token(Num, "1")] && w[..1][..0] == [];
  }

  /** Whatever follows "1 2" on a line, a run rejects it as excess text. */
  lemma ExcessFirst(s: seq<char>, x: int, r: Result<int>, e: Expr)
    requires ReadFrom(s, [Token(Num, "1"), Token(Num, "2")]) && Reports(s, x, r, e)
    ensures r == Err(ExcessText)
  {
    TwoNumbersSettle(s);
    Decided(s, x, r, e, [Token(Num, "1"), Token(Num, "2")], Err(ExcessText));
  }

  /** "1 2+" is excess text at the second number, not a missing operand
      after the PLUS, which the descent never reaches. */
  lemma TrailingPlusRejected(input: seq<char>, x: int, r: Result<int>, e: Expr)
    requires input == "1 2+\n" && Reports(input, x, r, e)
    ensures r == Err(ExcessText)
  {
    assert input[..3] == "1 2";
    TwoNumbersLead(input);
    ExcessFirst(input, x, r, e);
  }

  /** "1 2@" is excess text at the second number, not the tokenizer's error
      at the "@", which is never read. */
  lemma TrailingJunkRejected(input: seq<char>, x: int, r: Result<int>, e: Expr)
    requires input == "1 2@\n" && Reports(input, x, r, e)
    ensures r == Err(ExcessText)
  {
    assert input[..3] == "1 2";
    TwoNumbersLead(input);
    ExcessFirst(input, x, r, e);
  }

  /** "1 )" reads as a number, CLOSE, then END. */
  lemma StrayCloseTokens(s: seq<char>)
    requires s == "1 )\n"
    ensures ReadFrom(s, [Token(Num, "1"), Token(Close, ")"), Token(End, "")])
  {
    OneLead(s);
    SymbolLexes(s, 1, 2, Close);
    ReadOn(s, [Token(Num, "1")], 2, Token(Close, ")"), 3);
    ReadOn(s, [Token(Num, "1"), Token(Close, ")")], 3, Token(End, ""), 3);
  }

  /** A CLOSE with no OPEN before it is excess text, not a missing operand. */
  lemma StrayCloseRejected(input: seq<char>, x: int, r: Result<int>, e: Expr)
    requires input == "1 )\n" && Reports(input, x, r, e)
    ensures r == Err(ExcessText)
  {
    StrayCloseTokens(input);
    StrayCloseRead(input, x, r, e);
  }

  /** The answer to a line whose tokens are those of "1 )", from its tokens alone. */
  lemma StrayCloseRead(s: seq<char>, x: int, r: Result<int>, e: Expr)
    requires ReadFrom(s, [Token(Num, "1"), Token(Close, ")"), Token(End, "")]) && Reports(s, x, r, e)
    ensures r == Err(ExcessText)
  {
    RejectedAlong(s, [Token(Num, "1"), Token(Close, ")"), Token(End, "")], x, r, e);
    StrayCloseAnswer(r);
  }

  /** The one answer that fits the tokens of "1 )". */
  lemma StrayCloseAnswer(r: Result<int>)
    requires AnswerFits([Token(Num, "1"), Token(Close, ")"), Token(End, "")], r)
    ensures r == Err(ExcessText)
  {
    SmallNumerals();
  }

  /** "(1" reads as OPEN, a number, then END. */
  lemma UnclosedTokens(s: seq<char>)
    requires s == "(1\n"
    ensures ReadFrom(s, [Token(Open, "("), Token(Num, "1"), Token(End, "")])
  {
    SymbolLexes(s, 0, 0, Open);
    ReadOn(s, [], 0, Token(Open, "("), 1);
    NumberLexes(s, 1, 1, 2);
    assert s[1..2] == "1";
    ReadOn(s, [Token(Open, "(")], 1, Token(Num, "1"), 2);
    ReadOn(s, [Token(Open, "("), Token(Num, "1")], 2, Token(End, ""), 2);
  }

  /** An OPEN whose addition ends at END is missing its CLOSE. */
  lemma UnclosedRejected(input: seq<char>, x: int, r: Result<int>, e: Expr)
    requires input == "(1\n" && Reports(input, x, r, e)
    ensures r == Err(ExpectedClose)
  {
    UnclosedTokens(input);
    UnclosedRead(input, x, r, e);
  }

  /** The answer to a line whose tokens are those of "(1", from its tokens alone. */
  lemma UnclosedRead(s: seq<char>, x: int, r: Result<int>, e: Expr)
    requires ReadFrom(s, [Token(Open, "("), Token(Num, "1"), Token(End, "")]) && Reports(s, x, r, e)
    ensures r == Err(ExpectedClose)
  {
    RejectedAlong(s, [Token(Open, "("), Token(Num, "1"), Token(End, "")], x, r, e);
    UnclosedAnswer(r);
  }

  /** The one answer that fits the tokens of "(1". */
  lemma UnclosedAnswer(r: Result<int>)
    requires AnswerFits([Token(Open, "("), Token(Num, "1"), Token(End, "")], r)
    ensures r == Err(ExpectedClose)
  {
    SmallNumerals();
  }

  /** "(1+2" reads as OPEN, a number, PLUS, a number, then END. */
  lemma UnclosedSumTokens(s: seq<char>)
    requires s == "(1+2\n"
    ensures ReadFrom(s, [Token(Open, "("), Token(Num, "1"), Token(Plus, "+"), Token(Num, "2"), Token(End, "")])
  {
    UnclosedSumBody(s);
    ReadOn(s, [Token(Open, "("), Token(Num, "1"), Token(Plus, "+"), Token(Num, "2")], 4, Token(End, ""), 4);
  }

  /** The first four tokens of "(1+2", ending at its newline. */
  lemma UnclosedSumBody(s: seq<char>)
    requires s == "(1+2\n"
    ensures ReadFrom(s, [Token(Open, "("), Token(Num, "1"), Token(Plus, "+"), Token(Num, "2")])
    ensures Scan(s, 4).value.next == 4
  {
    UnclosedSumThree(s);
    NumberLexes(s, 3, 3, 4);
    assert s[3..4] == "2";
    ReadOn(s, [Token(Open, "("), Token(Num, "1"), Token(Plus, "+")], 3, Token(Num, "2"), 4);
  }

  /** The first three tokens of "(1+2". */
  lemma UnclosedSumThree(s: seq<char>)
    requires s == "(1+2\n"
    ensures ReadFrom(s, [Token(Open, "("), Token(Num, "1"), Token(Plus, "+")]) && Scan(s, 3).value.next == 3
  {
    UnclosedSumHead(s);
    SymbolLexes(s, 2, 2, Plus);
    ReadOn(s, [Token(Open, "("), Token(Num, "1")], 2, Token(Plus, "+"), 3);
  }

  /** The first two tokens of "(1+2". */
  lemma UnclosedSumHead(s: seq<char>)
    requires s == "(1+2\n"
    ensures ReadFrom(s, [Token(Open, "("), Token(Num, "1")]) && Scan(s, 2).value.next == 2
  {
    SymbolLexes(s, 0, 0, Open);
    ReadOn(s, [], 0, Token(Open, "("), 1);
    NumberLexes(s, 1, 1, 2);
    assert s[1..2] == "1";
    ReadOn(s, [Token(Open, "(")], 1, Token(Num, "1"), 2);
  }

  /** The same after a whole sum inside the parentheses. */
  lemma UnclosedSumRejected(input: seq<char>, x: int, r: Result<int>, e: Expr)
    requires input == "(1+2\n" && Reports(input, x, r, e)
    ensures r == Err(ExpectedClose)
  {
    UnclosedSumTokens(input);
    UnclosedSumRead(input, x, r, e);
  }

  /** The answer to a line whose tokens are those of "(1+2", from its tokens alone. */
  lemma UnclosedSumRead(s: seq<char>, x: int, r: Result<int>, e: Expr)
    requires ReadFrom(s, [Token(Open, "("), Token(Num, "1"), Token(Plus, "+"), Token(Num, "2"), Token(End, "")]) && Reports(s, x, r, e)
    ensures r == Err(ExpectedClose)
  {
    RejectedAlong(s, [Token(Open, "("), Token(Num, "1"), Token(Plus, "+"), Token(Num, "2"), Token(End, "")], x, r, e);
    UnclosedSumAnswer(r);
  }

  /** The one answer that fits the tokens of "(1+2". */
  lemma UnclosedSumAnswer(r: Result<int>)
    requires AnswerFits([Token(Open, "("), Token(Num, "1"), Token(Plus, "+"), Token(Num, "2"), Token(End, "")], r)
    ensures r == Err(ExpectedClose)
  {
    SmallNumerals();
  }

  /** "1+" reads as a number, PLUS, then END. */
  lemma MissingOperandTokens(s: seq<char>)
    requires s == "1+\n"
    ensures ReadFrom(s, [Token(Num, "1"), Token(Plus, "+"), Token(End, "")])
  {
    OneLead(s);
    SymbolLexes(s, 1, 1, Plus);
    ReadOn(s, [Token(Num, "1")], 1, Token(Plus, "+"), 2);
    ReadOn(s, [Token(Num, "1"), Token(Plus, "+")], 2, Token(End, ""), 2);
  }

  /** An operator followed by END is missing its operand. */
  lemma MissingOperandRejected(input: seq<char>, x: int, r: Result<int>, e: Expr)
    requires input == "1+\n" && Reports(input, x, r, e)
    ensures r == Err(ExpectedFactor)
  {
    MissingOperandTokens(input);
    MissingOperandRead(input, x, r, e);
  }

  /** The answer to a line whose tokens are those of "1+", from its tokens alone. */
  lemma MissingOperandRead(s: seq<char>, x: int, r: Result<int>, e: Expr)
    requires ReadFrom(s, [Token(Num, "1"), Token(Plus, "+"), Token(End, "")]) && Reports(s, x, r, e)
    ensures r == Err(ExpectedFactor)
  {
    RejectedAlong(s, [Token(Num, "1"), Token(Plus, "+"), Token(End, "")], x, r, e);
    MissingOperandAnswer(r);
  }

  /** The one answer that fits the tokens of "1+". */
  lemma MissingOperandAnswer(r: Result<int>)
    requires AnswerFits([Token(Num, "1"), Token(Plus, "+"), Token(End, "")], r)
    ensures r == Err(ExpectedFactor)
  {
    SmallNumerals();
  }

  /** "(1+)" reads as OPEN, a number, PLUS, CLOSE, then END. */
  lemma OpenOperatorTokens(s: seq<char>)
    requires s == "(1+)\n"
    ensures ReadFrom(s, [Token(Open, "("), Token(Num, "1"), Token(Plus, "+"), Token(Close, ")"), Token(End, "")])
  {
    OpenOperatorBody(s);
    ReadOn(s, [Token(Open, "("), Token(Num, "1"), Token(Plus, "+"), Token(Close, ")")], 4, Token(End, ""), 4);
  }

  /** The first four tokens of "(1+)", ending at its newline. */
  lemma OpenOperatorBody(s: seq<char>)
    requires s == "(1+)\n"
    ensures ReadFrom(s, [Token(Open, "("), Token(Num, "1"), Token(Plus, "+"), Token(Close, ")")])
    ensures Scan(s, 4).value.next == 4
  {
    OpenOperatorThree(s);
    SymbolLexes(s, 3, 3, Close);
    ReadOn(s, [Token(Open, "("), Token(Num, "1"), Token(Plus, "+")], 3, Token(Close, ")"), 4);
  }

  /** The first three tokens of "(1+)". */
  lemma OpenOperatorThree(s: seq<char>)
    requires s == "(1+)\n"
    ensures ReadFrom(s, [Token(Open, "("), Token(Num, "1"), Token(Plus, "+")]) && Scan(s, 3).value.next == 3
  {
    OpenOperatorHead(s);
    SymbolLexes(s, 2, 2, Plus);
    ReadOn(s, [Token(Open, "("), Token(Num, "1")], 2, Token(Plus, "+"), 3);
  }

  /** The first two tokens of "(1+)". */
  lemma OpenOperatorHead(s: seq<char>)
    requires s == "(1+)\n"
    ensures ReadFrom(s, [Token(Open, "("), Token(Num, "1")]) && Scan(s, 2).value.next == 2
  {
    SymbolLexes(s, 0, 0, Open);
    ReadOn(s, [], 0, Token(Open, "("), 1);
    NumberLexes(s, 1, 1, 2);
    assert s[1..2] == "1";
    ReadOn(s, [Token(Open, "(")], 1, Token(Num, "1"), 2);
  }

  /** A CLOSE where the operand after PLUS should be is a missing factor,
      not a missing CLOSE: the parentheses hold no whole addition. */
  lemma OpenOperatorRejected(input: seq<char>, x: int, r: Result<int>, e: Expr)
    requires input == "(1+)\n" && Reports(input, x, r, e)
    ensures r == Err(ExpectedFactor)
  {
    OpenOperatorTokens(input);
    OpenOperatorRead(input, x, r, e);
  }

  /** The answer to a line whose tokens are those of "(1+)", from its tokens alone. */
  lemma OpenOperatorRead(s: seq<char>, x: int, r: Result<int>, e: Expr)
    requires ReadFrom(s, [Token(Open, "("), Token(Num, "1"), Token(Plus, "+"), Token(Close, ")"), Token(End, "")]) && Reports(s, x, r, e)
    ensures r == Err(ExpectedFactor)
  {
    RejectedAlong(s, [Token(Open, "("), Token(Num, "1"), Token(Plus, "+"), Token(Close, ")"), Token(End, "")], x, r, e);
    OpenOperatorAnswer(r);
  }

  /** The one answer that fits the tokens of "(1+)". */
  lemma OpenOperatorAnswer(r: Result<int>)
    requires AnswerFits([Token(Open, "("), Token(Num, "1"), Token(Plus, "+"), Token(Close, ")"), Token(End, "")], r)
    ensures r == Err(ExpectedFactor)
  {
    SmallNumerals();
    OpenOperatorClosed();
  }

  /** Inside the parentheses of "(1+)" no balanced run is followed by a
      token that could stand for a missing CLOSE. */
  lemma OpenOperatorClosed()
    ensures !exists j, m :: UnclosedAt([Token(Open, "("), Token(Num, "1"), Token(Plus, "+"), Token(Close, ")"), Token(End, "")], j, m)
  {
    var ts := [Token(Open, "("), Token(Num, "1"), Token(Plus, "+"), Token(Close, ")"), Token(End, "")];
    forall j, m | 0 <= j && j + 1 < m < |ts| && ts[j] == Token(Open, "(") && ts[m].kind !in {Close, Plus, Minus, Mult}
      ensures !UnclosedAt(ts, j, m)
    {
      assert j == 0 && m == 4;
      assert ts[1..4] == [Token(Num, "1"), Token(Plus, "+"), Token(Close, ")")];
      assert multiset(ts[1..4])[Token(Close, ")")] == 1;
    }
  }
}
