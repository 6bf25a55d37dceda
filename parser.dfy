/** The recursive-descent parser over the grammar

      addition       -> multiplication { (PLUS | MINUS) multiplication }
      multiplication -> factor { MULT factor }
      factor         -> ID | NUMBER | OPEN addition CLOSE

    Each rule appends the postfix program of what it read to one shared
    program; an operator chain of n > 1 operands becomes a single n-ary node
    after its operands. The parse tree `Expr` is ghost bookkeeping: it records
    what was read, binary and left-nested as the loops read it. */
module Parsing {
  import opened Failures
  import opened Poliz
  import opened Lexing
  import opened Duals

  /** Largest value of a 32-bit int. */
  const IntMax: int := 2147483647

  datatype Expr =
    | Var(name: string)
    | Lit(text: string)
    | Paren(inner: Expr)
    | Sum(left: Expr, plus: bool, right: Expr)  // plus: the operator is '+', else '-'
    | Prod(left: Expr, right: Expr)

  /** Decimal value of a digit string. */
  function DigitsValue(t: string): int
  {
    if t == [] then 0 else DigitsValue(t[..|t| - 1]) * 10 + (t[|t| - 1] as int - '0' as int)
  }

  // ---------------------------------------------------------------------
  // Grammar

  function OpToken(plus: bool): Token
  {
    if plus then Token(Plus, "+") else Token(Minus, "-")
  }

  /** The tokens an expression is read from. */
  function Tokens(e: Expr): (ts: seq<Token>)
    ensures |ts| >= 1
  {
    match e
    case Var(n) => [Token(Id, n)]
    case Lit(t) => [Token(Num, t)]
    case Paren(i) => [Token(Open, "(")] + Tokens(i) + [Token(Close, ")")]
    case Sum(l, p, r) => Tokens(l) + [OpToken(p)] + Tokens(r)
    case Prod(l, r) => Tokens(l) + [Token(Mult, "*")] + Tokens(r)
  }

  predicate IsAddition(e: Expr)
    decreases e, 2
  {
    match e
    case Sum(l, _, r) => IsAddition(l) && IsMultiplication(r)
    case _ => IsMultiplication(e)
  }

  predicate IsMultiplication(e: Expr)
    decreases e, 1
  {
    match e
    case Prod(l, r) => IsMultiplication(l) && IsFactor(r)
    case _ => IsFactor(e)
  }

  predicate IsFactor(e: Expr)
    decreases e, 0
  {
    match e
    case Var(n) => IsIdentText(n)
    case Lit(t) => IsDigitText(t) && DigitsValue(t) <= IntMax
    case Paren(i) => IsAddition(i)
    case _ => false
  }

  // ---------------------------------------------------------------------
  // The emitted program

  /** The program the parser emits for e: a chain of n > 1 operands is the
      operands' programs followed by one n-ary node; parentheses vanish. */
  function Compile(e: Expr): seq<Node>
    decreases e, 1
  {
    match e
    case Var(n) => [Identifier(n)]
    case Lit(t) => [Number(DigitsValue(t))]
    case Paren(i) => Compile(i)
    case Sum(_, _, _) => SumTerms(e) + [Addition(SumArity(e), SumSigns(e))]
    case Prod(_, _) => ProdTerms(e) + [Multiplication(ProdArity(e))]
  }

  /** Programs of the operands of the sum chain whose last operator is e's. */
  function SumTerms(e: Expr): seq<Node>
    requires e.Sum?
    decreases e, 0
  {
    SumChain(e.left) + Compile(e.right)
  }

  /** What the addition rule has emitted once it has read e: the operands'
      programs, before any n-ary node. */
  function SumChain(e: Expr): seq<Node>
    decreases e, 2
  {
    if e.Sum? then SumTerms(e) else Compile(e)
  }

  function SumArity(e: Expr): (k: nat)
    ensures k >= 1
  {
    if e.Sum? then SumArity(e.left) + 1 else 1
  }

  /** The signs of the chain's operators in reading order. */
  function SumSigns(e: Expr): seq<bool>
  {
    if e.Sum? then SumSigns(e.left) + [e.plus] else []
  }

  function ProdTerms(e: Expr): seq<Node>
    requires e.Prod?
    decreases e, 0
  {
    ProdChain(e.left) + Compile(e.right)
  }

  function ProdChain(e: Expr): seq<Node>
    decreases e, 2
  {
    if e.Prod? then ProdTerms(e) else Compile(e)
  }

  function ProdArity(e: Expr): (k: nat)
    ensures k >= 1
  {
    if e.Prod? then ProdArity(e.left) + 1 else 1
  }

  // ---------------------------------------------------------------------
  // Meaning of an expression

  /** Value of e when every identifier reads x. */
  function EvalExpr(e: Expr, x: int): int
  {
    match e
    case Var(_) => x
    case Lit(t) => DigitsValue(t)
    case Paren(i) => EvalExpr(i, x)
    case Sum(l, p, r) => if p then EvalExpr(l, x) + EvalExpr(r, x) else EvalExpr(l, x) - EvalExpr(r, x)
    case Prod(l, r) => EvalExpr(l, x) * EvalExpr(r, x)
  }

  /** Value and derivative of e with respect to the variable wrt, by the
      binary sum, difference and product rules; every identifier reads x. */
  function DEvalExpr(e: Expr, x: int, wrt: string): Dual
  {
    match e
    case Var(n) => Dual(x, if n == wrt then 1 else 0)
    case Lit(t) => Dual(DigitsValue(t), 0)
    case Paren(i) => DEvalExpr(i, x, wrt)
    case Sum(l, p, r) =>
      if p then DAdd(DEvalExpr(l, x, wrt), DEvalExpr(r, x, wrt))
      else DSub(DEvalExpr(l, x, wrt), DEvalExpr(r, x, wrt))
    case Prod(l, r) => DMul(DEvalExpr(l, x, wrt), DEvalExpr(r, x, wrt))
  }

  /** Every n-ary node has at least two operands, and every Addition exactly
      one sign per operand after the first. */
  predicate NodeShaped(n: Node)
  {
    match n
    case Addition(k, mask) => k >= 2 && |mask| == k - 1
    case Multiplication(k) => k >= 2
    case _ => true
  }

  predicate AllShaped(p: seq<Node>)
  {
    forall i :: 0 <= i < |p| ==> NodeShaped(p[i])
  }

  // ---------------------------------------------------------------------
  // Lemmas

  lemma DEvalValue(e: Expr, x: int, wrt: string)
    ensures DEvalExpr(e, x, wrt).v == EvalExpr(e, x)
  {
  }

  /** Dual values of the operands of a sum chain, in reading order. */
  function SumDuals(e: Expr, x: int, wrt: string): (ds: seq<Dual>)
    ensures |ds| == SumArity(e)
  {
    if e.Sum? then SumDuals(e.left, x, wrt) + [DEvalExpr(e.right, x, wrt)] else [DEvalExpr(e, x, wrt)]
  }

  function ProdDuals(e: Expr, x: int, wrt: string): (ds: seq<Dual>)
    ensures |ds| == ProdArity(e)
  {
    if e.Prod? then ProdDuals(e.left, x, wrt) + [DEvalExpr(e.right, x, wrt)] else [DEvalExpr(e, x, wrt)]
  }

  lemma {:induction false} SumSignsLength(e: Expr)
    ensures |SumSigns(e)| == SumArity(e) - 1
  {
    if e.Sum? {
      SumSignsLength(e.left);
    }
  }

  /** Folding the operands of a chain with its signs gives the left-nested
      binary value. */
  lemma {:induction false} SumChainValue(e: Expr, x: int, wrt: string)
    ensures |SumSigns(e)| == SumArity(e) - 1
    ensures DSignedSum(SumDuals(e, x, wrt), SumSigns(e)) == DEvalExpr(e, x, wrt)
  {
    SumSignsLength(e);
    if e.Sum? {
      var ds := SumDuals(e, x, wrt);
      SumChainValue(e.left, x, wrt);
      assert ds[..|ds| - 1] == SumDuals(e.left, x, wrt);
      DSignedSumPrefix(SumDuals(e.left, x, wrt), SumSigns(e.left), [e.plus]);
    }
  }

  lemma {:induction false} DSignedSumPrefix(ts: seq<Dual>, mask: seq<bool>, extra: seq<bool>)
    requires |ts| >= 1 && |mask| >= |ts| - 1
    ensures DSignedSum(ts, mask + extra) == DSignedSum(ts, mask)
  {
    if |ts| > 1 {
      DSignedSumPrefix(ts[..|ts| - 1], mask, extra);
    }
  }

  lemma {:induction false} ProdChainValue(e: Expr, x: int, wrt: string)
    ensures DProduct(ProdDuals(e, x, wrt)) == DEvalExpr(e, x, wrt)
  {
    var ds := ProdDuals(e, x, wrt);
    if e.Prod? {
      ProdChainValue(e.left, x, wrt);
      assert ds[..|ds| - 1] == ProdDuals(e.left, x, wrt);
    } else {
      assert ds[..0] == [];
      var d := DEvalExpr(e, x, wrt);
      assert DMul(Dual(1, 0), d) == d;
    }
  }

  /** The emitted program computes the expression's value and derivative on
      the dual stack, pushing one entry. */
  lemma {:induction false} DExecCompile(e: Expr, x: int, wrt: string, st: seq<Dual>)
    ensures DExec(Compile(e), x, wrt, st) == Some(st + [DEvalExpr(e, x, wrt)])
    decreases e, 1
  {
    match e
    case Var(n) =>
      assert Compile(e)[..0] == [];
    case Lit(t) =>
      assert Compile(e)[..0] == [];
    case Paren(i) =>
      DExecCompile(i, x, wrt, st);
    case Sum(_, _, _) =>
      var ds := SumDuals(e, x, wrt);
      var k := SumArity(e);
      DExecTerms(e, x, wrt, st);
      DExecAppend(SumTerms(e), [Addition(k, SumSigns(e))], x, wrt, st);
      SumChainValue(e, x, wrt);
      var top := st + ds;
      assert top[..|top| - k] == st && top[|top| - k..] == ds;
      DExecSingle(Addition(k, SumSigns(e)), x, wrt, top);
    case Prod(_, _) =>
      var ds := ProdDuals(e, x, wrt);
      var k := ProdArity(e);
      DExecProdTerms(e, x, wrt, st);
      DExecAppend(ProdTerms(e), [Multiplication(k)], x, wrt, st);
      ProdChainValue(e, x, wrt);
      var top := st + ds;
      assert top[..|top| - k] == st && top[|top| - k..] == ds;
      DExecSingle(Multiplication(k), x, wrt, top);
  }

  /** The operands' programs of a sum chain push the operands' duals. */
  lemma {:induction false} DExecTerms(e: Expr, x: int, wrt: string, st: seq<Dual>)
    requires e.Sum?
    ensures DExec(SumTerms(e), x, wrt, st) == Some(st + SumDuals(e, x, wrt))
    decreases e, 0
  {
    DExecChain(e.left, x, wrt, st);
    DExecAppend(SumChain(e.left), Compile(e.right), x, wrt, st);
    DExecCompile(e.right, x, wrt, st + SumDuals(e.left, x, wrt));
    assert st + SumDuals(e.left, x, wrt) + [DEvalExpr(e.right, x, wrt)] == st + SumDuals(e, x, wrt);
  }

  lemma {:induction false} DExecChain(e: Expr, x: int, wrt: string, st: seq<Dual>)
    ensures DExec(SumChain(e), x, wrt, st) == Some(st + SumDuals(e, x, wrt))
    decreases e, 2
  {
    if e.Sum? {
      DExecTerms(e, x, wrt, st);
    } else {
      DExecCompile(e, x, wrt, st);
    }
  }

  lemma {:induction false} DExecProdTerms(e: Expr, x: int, wrt: string, st: seq<Dual>)
    requires e.Prod?
    ensures DExec(ProdTerms(e), x, wrt, st) == Some(st + ProdDuals(e, x, wrt))
    decreases e, 0
  {
    DExecProdChain(e.left, x, wrt, st);
    DExecAppend(ProdChain(e.left), Compile(e.right), x, wrt, st);
    DExecCompile(e.right, x, wrt, st + ProdDuals(e.left, x, wrt));
    assert st + ProdDuals(e.left, x, wrt) + [DEvalExpr(e.right, x, wrt)] == st + ProdDuals(e, x, wrt);
  }

  lemma {:induction false} DExecProdChain(e: Expr, x: int, wrt: string, st: seq<Dual>)
    ensures DExec(ProdChain(e), x, wrt, st) == Some(st + ProdDuals(e, x, wrt))
    decreases e, 2
  {
    if e.Prod? {
      DExecProdTerms(e, x, wrt, st);
    } else {
      DExecCompile(e, x, wrt, st);
    }
  }

  lemma {:induction false} DExecAppend(a: seq<Node>, b: seq<Node>, x: int, wrt: string, st: seq<Dual>)
    ensures DExec(a + b, x, wrt, st) ==
            match DExec(a, x, wrt, st)
            case None => None
            case Some(s) => DExec(b, x, wrt, s)
    decreases |b|
  {
    if b == [] {
      assert a + b == a;
    } else {
      var b' := b[..|b| - 1];
      assert (a + b)[..|a + b| - 1] == a + b';
      assert (a + b)[|a + b| - 1] == b[|b| - 1];
      DExecAppend(a, b', x, wrt, st);
    }
  }

  lemma DExecSingle(n: Node, x: int, wrt: string, st: seq<Dual>)
    ensures DExec([n], x, wrt, st) == DStep(n, x, wrt, st)
  {
    assert [n][..0] == [];
  }

  /** The parser's program for e is well formed, leaves exactly one value,
      and that value is e's value. */
  lemma CompileCorrect(e: Expr, x: int)
    ensures Exec(Compile(e), x, []) == Some([EvalExpr(e, x)])
    ensures WellFormed(Compile(e)) && Height(Compile(e), 0) == Some(1)
  {
    DExecCompile(e, x, "", []);
    DExecValues(Compile(e), x, "", []);
    assert Values([]) == [];
    DEvalValue(e, x, "");
    assert [] + [DEvalExpr(e, x, "")] == [DEvalExpr(e, x, "")];
    assert Values([DEvalExpr(e, x, "")]) == [EvalExpr(e, x)];
    ExecDefined(Compile(e), x, []);
  }

  lemma ShapedAppend(a: seq<Node>, b: seq<Node>)
    requires AllShaped(a) && AllShaped(b)
    ensures AllShaped(a + b)
  {
    forall i | 0 <= i < |a + b|
      ensures NodeShaped((a + b)[i])
    {
      if i >= |a| {
        assert (a + b)[i] == b[i - |a|];
      }
    }
  }

  /** An n-ary node is emitted only for a chain of at least two operands, and
      an Addition carries one sign per operator. */
  lemma {:induction false} CompileShaped(e: Expr)
    ensures AllShaped(Compile(e))
    decreases e, 1
  {
    match e
    case Var(_) =>
    case Lit(_) =>
    case Paren(i) =>
      CompileShaped(i);
    case Sum(_, _, _) =>
      TermsShaped(e);
      SumSignsLength(e);
      ShapedAppend(SumTerms(e), [Addition(SumArity(e), SumSigns(e))]);
    case Prod(_, _) =>
      ProdTermsShaped(e);
      ShapedAppend(ProdTerms(e), [Multiplication(ProdArity(e))]);
  }

  lemma {:induction false} TermsShaped(e: Expr)
    requires e.Sum?
    ensures AllShaped(SumTerms(e))
    decreases e, 0
  {
    ChainShaped(e.left);
    CompileShaped(e.right);
    ShapedAppend(SumChain(e.left), Compile(e.right));
  }

  lemma {:induction false} ChainShaped(e: Expr)
    ensures AllShaped(SumChain(e))
    decreases e, 2
  {
    if e.Sum? {
      TermsShaped(e);
    } else {
      CompileShaped(e);
    }
  }

  lemma {:induction false} ProdTermsShaped(e: Expr)
    requires e.Prod?
    ensures AllShaped(ProdTerms(e))
    decreases e, 0
  {
    ProdChainShaped(e.left);
    CompileShaped(e.right);
    ShapedAppend(ProdChain(e.left), Compile(e.right));
  }

  lemma {:induction false} ProdChainShaped(e: Expr)
    ensures AllShaped(ProdChain(e))
    decreases e, 2
  {
    if e.Prod? {
      ProdTermsShaped(e);
    } else {
      CompileShaped(e);
    }
  }

  lemma Regroup<T>(a: seq<T>, b: seq<T>, c: seq<T>)
    ensures a + b + c == a + (b + c)
  {
  }

  /** Reading one more operator and operand extends a sum chain. */
  lemma SumExtends(e: Expr, plus: bool, m: Expr, c0: seq<Token>, p0: seq<Node>)
    ensures c0 + Tokens(e) + [OpToken(plus)] + Tokens(m) == c0 + Tokens(Sum(e, plus, m))
    ensures p0 + SumChain(e) + Compile(m) == p0 + SumChain(Sum(e, plus, m))
  {
    assert Tokens(Sum(e, plus, m)) == Tokens(e) + [OpToken(plus)] + Tokens(m);
    assert SumChain(Sum(e, plus, m)) == SumChain(e) + Compile(m);
    Regroup(c0, Tokens(e) + [OpToken(plus)], Tokens(m));
    Regroup(p0, SumChain(e), Compile(m));
  }

  /** Reading one more MULT and factor extends a product chain. */
  lemma ProdExtends(e: Expr, f: Expr, c0: seq<Token>, p0: seq<Node>)
    ensures c0 + Tokens(e) + [Token(Mult, "*")] + Tokens(f) == c0 + Tokens(Prod(e, f))
    ensures p0 + ProdChain(e) + Compile(f) == p0 + ProdChain(Prod(e, f))
  {
    assert Tokens(Prod(e, f)) == Tokens(e) + [Token(Mult, "*")] + Tokens(f);
    assert ProdChain(Prod(e, f)) == ProdChain(e) + Compile(f);
    Regroup(c0, Tokens(e) + [Token(Mult, "*")], Tokens(f));
    Regroup(p0, ProdChain(e), Compile(f));
  }

  /** Closing a chain: the n-ary node follows the operands when there are
      at least two of them. */
  lemma SumCloses(e: Expr, p0: seq<Node>)
    ensures SumArity(e) > 1 ==> p0 + SumChain(e) + [Addition(SumArity(e), SumSigns(e))] == p0 + Compile(e)
    ensures SumArity(e) == 1 ==> p0 + SumChain(e) == p0 + Compile(e)
  {
  }

  lemma ProdCloses(e: Expr, p0: seq<Node>)
    ensures ProdArity(e) > 1 ==> p0 + ProdChain(e) + [Multiplication(ProdArity(e))] == p0 + Compile(e)
    ensures ProdArity(e) == 1 ==> p0 + ProdChain(e) == p0 + Compile(e)
  {
  }

  /** Every expression is read from an odd number of tokens, none of them
      END, and ends with an ID, a NUMBER or a CLOSE. */
  lemma TokensShape(e: Expr)
    ensures |Tokens(e)| % 2 == 1
    ensures forall i :: 0 <= i < |Tokens(e)| ==> Tokens(e)[i].kind != End
    ensures Tokens(e)[|Tokens(e)| - 1].kind in {Id, Num, Close}
  {
    TokensOdd(e);
    TokensNoEnd(e);
    TokensLast(e);
  }

  lemma {:induction false} TokensOdd(e: Expr)
    ensures |Tokens(e)| % 2 == 1
  {
    match e
    case Var(_) =>
    case Lit(_) =>
    case Paren(i) =>
      TokensOdd(i);
      OddAround(|Tokens(i)|, 1, 1);
    case Sum(l, _, r) =>
      TokensOdd(l);
      TokensOdd(r);
      OddAround(1, |Tokens(l)|, |Tokens(r)|);
    case Prod(l, r) =>
      TokensOdd(l);
      TokensOdd(r);
      OddAround(1, |Tokens(l)|, |Tokens(r)|);
  }

  /** As many OPEN as CLOSE tokens. */
  predicate Balanced(ts: seq<Token>)
  {
    multiset(ts)[Token(Open, "(")] == multiset(ts)[Token(Close, ")")]
  }

  /** Every parenthesis an expression opens it also closes. */
  lemma {:induction false} TokensBalanced(e: Expr)
    ensures Balanced(Tokens(e))
  {
    match e
    case Var(_) =>
    case Lit(_) =>
    case Paren(i) =>
      TokensBalanced(i);
      assert multiset(Tokens(e)) == multiset([Token(Open, "(")]) + multiset(Tokens(i)) + multiset([Token(Close, ")")]);
    case Sum(l, p, r) =>
      TokensBalanced(l);
      TokensBalanced(r);
      assert multiset(Tokens(e)) == multiset(Tokens(l)) + multiset([OpToken(p)]) + multiset(Tokens(r));
    case Prod(l, r) =>
      TokensBalanced(l);
      TokensBalanced(r);
      assert multiset(Tokens(e)) == multiset(Tokens(l)) + multiset([Token(Mult, "*")]) + multiset(Tokens(r));
  }

  lemma OddAround(m: nat, a: nat, b: nat)
    requires m % 2 == 1 && (a + b) % 2 == 0
    ensures (a + m + b) % 2 == 1
  {
  }

  lemma {:induction false} TokensNoEnd(e: Expr)
    ensures forall i :: 0 <= i < |Tokens(e)| ==> Tokens(e)[i].kind != End
  {
    match e
    case Var(_) =>
    case Lit(_) =>
    case Paren(i) =>
      TokensNoEnd(i);
      JoinNoEnd([Token(Open, "(")], Tokens(i), [Token(Close, ")")]);
    case Sum(l, p, r) =>
      TokensNoEnd(l);
      TokensNoEnd(r);
      JoinNoEnd(Tokens(l), [OpToken(p)], Tokens(r));
    case Prod(l, r) =>
      TokensNoEnd(l);
      TokensNoEnd(r);
      JoinNoEnd(Tokens(l), [Token(Mult, "*")], Tokens(r));
  }

  lemma {:induction false} TokensLast(e: Expr)
    ensures Tokens(e)[|Tokens(e)| - 1].kind in {Id, Num, Close}
  {
    match e
    case Var(_) =>
    case Lit(_) =>
    case Paren(i) =>
    case Sum(l, p, r) =>
      TokensLast(r);
      assert Tokens(e)[|Tokens(e)| - 1] == Tokens(r)[|Tokens(r)| - 1];
    case Prod(l, r) =>
      TokensLast(r);
      assert Tokens(e)[|Tokens(e)| - 1] == Tokens(r)[|Tokens(r)| - 1];
  }

  lemma JoinNoEnd(a: seq<Token>, b: seq<Token>, c: seq<Token>)
    requires forall i :: 0 <= i < |a| ==> a[i].kind != End
    requires forall i :: 0 <= i < |b| ==> b[i].kind != End
    requires forall i :: 0 <= i < |c| ==> c[i].kind != End
    ensures forall i :: 0 <= i < |a + b + c| ==> (a + b + c)[i].kind != End
  {
    forall i | 0 <= i < |a + b + c|
      ensures (a + b + c)[i].kind != End
    {
      if i < |a| {
        assert (a + b + c)[i] == a[i];
      } else if i < |a| + |b| {
        assert (a + b + c)[i] == b[i - |a|];
      } else {
        assert (a + b + c)[i] == c[i - |a| - |b|];
      }
    }
  }

  predicate EndsWith<T(==)>(a: seq<T>, b: seq<T>)
  {
    |b| <= |a| && a[|a| - |b|..] == b
  }

  // ---------------------------------------------------------------------
  // Errors

  /** ts are the first |ts| tokens of s. */
  predicate ReadFrom(s: seq<char>, ts: seq<Token>)
  {
    Scan(s, |ts|).Some? && Scan(s, |ts|).value.tokens == ts
  }

  /** After the tokens ts of s, the tokenizer fails with err. */
  predicate LexFailed(s: seq<char>, ts: seq<Token>, err: Error)
  {
    Scan(s, |ts|).Some? && Lex(s, Scan(s, |ts|).value.next) == Err(err)
  }

  /** ts ends where an operand must begin: nothing has been read yet, or the
      last token is OPEN or an operator. */
  predicate OperandStart(ts: seq<Token>)
  {
    ts == [] || ts[|ts| - 1].kind in {Open, Plus, Minus, Mult}
  }

  /** Where the descent stands after a run of tokens: expecting an operand
      or an operator inside depth open parentheses, past END with every
      parenthesis closed, or stuck on a token no parse of the grammar takes. */
  datatype Phase = Operand(depth: nat) | Operator(depth: nat) | Accepted | Stuck

  /** The descent still waits for tokens. */
  predicate Live(p: Phase)
  {
    p.Operand? || p.Operator?
  }

  /** One token taken from phase p. A literal above IntMax stops the descent
      as any misplaced token does. */
  function Shift(p: Phase, t: Token): Phase
  {
    match p
    case Operand(d) =>
      if t.kind == Id || (t.kind == Num && DigitsValue(t.text) <= IntMax) then Operator(d)
      else if t.kind == Open then Operand(d + 1)
      else Stuck
    case Operator(d) =>
      if t.kind in {Plus, Minus, Mult} then Operand(d)
      else if t.kind == Close && d > 0 then Operator(d - 1)
      else if t.kind == End && d == 0 then Accepted
      else Stuck
    case Accepted => Accepted
    case Stuck => Stuck
  }

  /** The phase after the tokens ts, from an operand at depth 0. */
  function Walk(ts: seq<Token>): Phase
  {
    if ts == [] then Operand(0) else Shift(Walk(ts[..|ts| - 1]), ts[|ts| - 1])
  }

  /** The error raised at a token that stops the descent in phase p. */
  function Blame(p: Phase, t: Token): Error
  {
    if p.Operand? then (if t.kind == Num then ConversionError else ExpectedFactor)
    else if p.Operator? && p.depth > 0 then ExpectedClose
    else ExcessText
  }

  /** Where an operand is expected, nothing has been read yet or the last
      token is OPEN or an operator. */
  lemma WalkOperandStart(ts: seq<Token>)
    requires Walk(ts).Operand?
    ensures OperandStart(ts)
  {
    if ts != [] {
      var p := Walk(ts[..|ts| - 1]);
      assert Shift(p, ts[|ts| - 1]).Operand?;
    }
  }

  /** Once the descent has stopped or accepted, more tokens change nothing. */
  lemma {:induction false} WalkSettled(ts: seq<Token>, k: nat)
    requires k <= |ts| && !Live(Walk(ts[..k]))
    ensures Walk(ts) == Walk(ts[..k])
    decreases |ts|
  {
    if k < |ts| {
      var front := ts[..|ts| - 1];
      assert front[..k] == ts[..k];
      WalkSettled(front, k);
    } else {
      assert ts[..k] == ts;
    }
  }

  /** What a parse error means about the tokens ts read from s when it is
      raised, the last of them being the current token; e is the addition
      read inside the parentheses for ExpectedClose. Every token before the
      current one was taken without error. */
  predicate Explains(err: Error, e: Expr, s: seq<char>, ts: seq<Token>)
  {
    match err
    case ExpectedFactor =>
      ReadFrom(s, ts) && ts != [] && ts[|ts| - 1].kind !in {Id, Num, Open} && Walk(ts[..|ts| - 1]).Operand?
    case ExpectedClose =>
      ReadFrom(s, ts) && ts != [] && ts[|ts| - 1].kind !in {Close, Plus, Minus, Mult} && IsAddition(e) &&
      EndsWith(ts[..|ts| - 1], [Token(Open, "(")] + Tokens(e)) &&
      Walk(ts[..|ts| - 1]).Operator? && Walk(ts[..|ts| - 1]).depth > 0
    case ConversionError =>
      ReadFrom(s, ts) && ts != [] && ts[|ts| - 1].kind == Num && DigitsValue(ts[|ts| - 1].text) > IntMax &&
      Walk(ts[..|ts| - 1]).Operand?
    case LexError(_) => ReadFrom(s, ts) && LexFailed(s, ts, err) && Live(Walk(ts))
    case ExcessText => false
  }

  /** A parenthesised addition followed by a token that cannot close it is an ExpectedClose. */
  lemma MissingClose(s: seq<char>, ts: seq<Token>, before: seq<Token>, inner: Expr)
    requires ReadFrom(s, ts) && ts != [] && ts[|ts| - 1].kind !in {Close, Plus, Minus, Mult} && IsAddition(inner)
    requires ts[..|ts| - 1] == before + ([Token(Open, "(")] + Tokens(inner))
    requires Walk(ts[..|ts| - 1]).Operator? && Walk(ts[..|ts| - 1]).depth > 0
    ensures Explains(ExpectedClose, inner, s, ts)
  {
    var u := [Token(Open, "(")] + Tokens(inner);
    assert ts[..|ts| - 1][|ts| - 1 - |u|..] == u;
  }

  // ---------------------------------------------------------------------
  // The parser

  class Parser {
    const lex: Lexer
    /** The program emitted so far. */
    var poliz: seq<Node>

    /** The parser and tokenizer before a run: nothing emitted, no token
        read, the look-ahead at the first character. */
    constructor(input: seq<char>)
      ensures fresh(lex) && lex.input == input && lex.Valid() && lex.trace == [] && poliz == []
    {
      lex := new Lexer(input);
      poliz := [];
    }

    /** The tokenizer holds a current token. */
    ghost predicate Valid()
      reads this, lex
    {
      lex.Valid() && lex.trace != []
    }

    function Current(): Token
      reads lex
    {
      Token(lex.curType, lex.curText)
    }

    /** Tokens read and used up, before the current one. */
    ghost function Consumed(): seq<Token>
      reads this, lex
      requires Valid()
    {
      lex.trace[..|lex.trace| - 1]
    }

    /** The phase of the descent after the tokens used up. */
    ghost function Stand(): Phase
      reads this, lex
      requires Valid()
    {
      Walk(Consumed())
    }

    /** Reads the next token: the current one is used up. */
    method Advance() returns (o: Outcome)
      requires lex.Valid() && lex.curType != End
      modifies lex
      ensures o.Pass? ==> lex.Valid() && lex.trace == old(lex.trace) + [Current()] &&
                          0 <= lex.Remaining() < old(lex.Remaining())
      ensures o.Fail? ==> o.error.LexError? && LexFailed(lex.input, lex.trace, o.error) && lex.trace == old(lex.trace) &&
                          ReadFrom(lex.input, lex.trace)
    {
      o := lex.Next();
      LexFails(lex.input, old(lex.pos));
    }

    /** factor -> ID | NUMBER | OPEN addition CLOSE */
    method Factor() returns (res: Outcome, ghost e: Expr)
      requires Valid() && Stand().Operand?
      modifies this, lex
      decreases lex.Remaining(), 1
      ensures old(lex.curType) !in {Id, Num, Open} ==> res == Fail(ExpectedFactor)
      ensures old(lex.curType) == Num ==> (res == Fail(ConversionError) <==> DigitsValue(old(lex.curText)) > IntMax)
      ensures res.Pass? ==> Valid() && IsFactor(e) && poliz == old(poliz) + Compile(e) &&
                            Consumed() == old(Consumed()) + Tokens(e) && Stand() == Operator(old(Stand()).depth) &&
                            0 <= lex.Remaining() < old(lex.Remaining())
      ensures res.Fail? ==> Explains(res.error, e, lex.input, lex.trace)
    {
      e := Var("");
      if lex.curType == Id {
        res, e := Identifier();
      } else if lex.curType == Num {
        res, e := Number();
      } else if lex.curType == Open {
        res, e := Parenthesised();
      } else {
        res := Fail(ExpectedFactor);
      }
    }

    method Identifier() returns (res: Outcome, ghost e: Expr)
      requires Valid() && lex.curType == Id && Stand().Operand?
      modifies this, lex
      ensures res.Pass? ==> Valid() && IsFactor(e) && poliz == old(poliz) + Compile(e) &&
                            Consumed() == old(Consumed()) + Tokens(e) && Stand() == Operator(old(Stand()).depth) &&
                            0 <= lex.Remaining() < old(lex.Remaining())
      ensures res.Fail? ==> res.error.LexError? && Explains(res.error, e, lex.input, lex.trace)
    {
      e := Var(lex.curText);
      ghost var before := Consumed();
      var id := lex.curText;
      res := Advance();
      if res.Pass? {
        poliz := poliz + [Node.Identifier(id)];
      }
    }

    method Number() returns (res: Outcome, ghost e: Expr)
      requires Valid() && lex.curType == Num && Stand().Operand?
      modifies this, lex
      ensures res == Fail(ConversionError) <==> DigitsValue(old(lex.curText)) > IntMax
      ensures res.Pass? ==> Valid() && IsFactor(e) && poliz == old(poliz) + Compile(e) &&
                            Consumed() == old(Consumed()) + Tokens(e) && Stand() == Operator(old(Stand()).depth) &&
                            0 <= lex.Remaining() < old(lex.Remaining())
      ensures res.Fail? ==> Explains(res.error, e, lex.input, lex.trace)
    {
      e := Lit(lex.curText);
      if DigitsValue(lex.curText) > IntMax {
        return Fail(ConversionError), e;
      }
      var value := DigitsValue(lex.curText);
      res := Advance();
      if res.Pass? {
        poliz := poliz + [Node.Number(value)];
      }
    }

    method Parenthesised() returns (res: Outcome, ghost e: Expr)
      requires Valid() && lex.curType == Open && Stand().Operand?
      modifies this, lex
      decreases lex.Remaining(), 0
      ensures res.Pass? ==> Valid() && IsFactor(e) && poliz == old(poliz) + Compile(e) &&
                            Consumed() == old(Consumed()) + Tokens(e) && Stand() == Operator(old(Stand()).depth) &&
                            0 <= lex.Remaining() < old(lex.Remaining())
      ensures res.Fail? ==> Explains(res.error, e, lex.input, lex.trace)
    {
      ghost var before := Consumed();
      e := Var("");
      res := OpenParen();
      if res.Fail? {
        return;
      }
      ghost var inner;
      res, inner := Addition();
      if res.Fail? {
        return res, inner;
      }
      Regroup(before, [Token(Open, "(")], Tokens(inner));
      res, e := CloseParen(inner, before);
    }

    /** The opening parenthesis: the walk goes one level deeper and expects an operand. */
    method OpenParen() returns (res: Outcome)
      requires Valid() && lex.curType == Open && Stand().Operand?
      modifies lex
      ensures res.Pass? ==> Valid() && Consumed() == old(Consumed()) + [Token(Open, "(")] &&
                            Stand() == Operand(old(Stand()).depth + 1) &&
                            0 <= lex.Remaining() < old(lex.Remaining())
      ensures res.Fail? ==> Explains(res.error, Var(""), lex.input, lex.trace)
    {
      ghost var t := lex.trace;
      assert t[..|t| - 1] == Consumed() && t[|t| - 1] == Token(Open, "(");
      ghost var p := Walk(t);
      assert p == Operand(Stand().depth + 1);
      res := Advance();
      if res.Pass? {
        assert Consumed() == t;
      } else {
        assert Live(Walk(lex.trace));
      }
    }

    /** The closing parenthesis after the addition inside. */
    method CloseParen(ghost inner: Expr, ghost before: seq<Token>) returns (res: Outcome, ghost e: Expr)
      requires Valid() && IsAddition(inner) && Consumed() == before + ([Token(Open, "(")] + Tokens(inner))
      requires lex.curType !in {Plus, Minus, Mult} && Stand().Operator? && Stand().depth > 0
      modifies lex
      ensures old(lex.curType) != Close ==> res == Fail(ExpectedClose)
      ensures res.Pass? ==> Valid() && e == Paren(inner) && Consumed() == before + Tokens(e) &&
                            Stand() == Operator(old(Stand()).depth - 1) &&
                            0 <= lex.Remaining() < old(lex.Remaining())
      ensures res.Fail? ==> Explains(res.error, e, lex.input, lex.trace)
    {
      e := inner;
      ghost var t := lex.trace;
      if lex.curType != Close {
        MissingClose(lex.input, t, before, inner);
        return Fail(ExpectedClose), inner;
      }
      assert t[..|t| - 1] == Consumed() && t[|t| - 1] == Token(Close, ")");
      ghost var p := Walk(t);
      assert p == Operator(Stand().depth - 1);
      e := Paren(inner);
      assert t == before + Tokens(e);
      res := Advance();
      if res.Pass? {
        assert Consumed() == t;
      } else {
        assert Live(Walk(lex.trace));
      }
    }

    /** multiplication -> factor { MULT factor } */
    method Multiplication() returns (res: Outcome, ghost e: Expr)
      requires Valid() && Stand().Operand?
      modifies this, lex
      decreases lex.Remaining(), 3
      ensures res.Pass? ==> Valid() && IsMultiplication(e) && poliz == old(poliz) + Compile(e) &&
                            Consumed() == old(Consumed()) + Tokens(e) && lex.curType != Mult &&
                            Stand() == Operator(old(Stand()).depth) &&
                            0 <= lex.Remaining() < old(lex.Remaining())
      ensures res.Fail? ==> Explains(res.error, e, lex.input, lex.trace)
    {
      ghost var c0, d := Consumed(), Stand().depth;
      var arity := 1;
      res, e := Factor();
      if res.Fail? {
        return;
      }
      while lex.curType == Mult
        invariant res.Pass? && Valid() && IsMultiplication(e) && ProdArity(e) == arity
        invariant poliz == old(poliz) + ProdChain(e)
        invariant Consumed() == c0 + Tokens(e) && Stand() == Operator(d)
        invariant 0 <= lex.Remaining() < old(lex.Remaining())
        decreases lex.Remaining()
      {
        arity := arity + 1;
        res, e := MoreFactors(e, old(poliz), c0);
        if res.Fail? {
          return;
        }
      }
      ProdCloses(e, old(poliz));
      if arity > 1 {
        poliz := poliz + [Node.Multiplication(arity)];
      }
    }

    /** One more MULT factor of a product chain e. */
    method MoreFactors(ghost e: Expr, ghost p0: seq<Node>, ghost c0: seq<Token>) returns (res: Outcome, ghost e': Expr)
      requires Valid() && lex.curType == Mult && IsMultiplication(e) && Stand().Operator?
      requires poliz == p0 + ProdChain(e) && Consumed() == c0 + Tokens(e)
      modifies this, lex
      decreases lex.Remaining(), 2
      ensures res.Pass? ==> Valid() && IsMultiplication(e') && e'.Prod? && e'.left == e &&
                            poliz == p0 + ProdChain(e') && Consumed() == c0 + Tokens(e') && Stand() == old(Stand()) &&
                            0 <= lex.Remaining() < old(lex.Remaining())
      ensures res.Fail? ==> Explains(res.error, e', lex.input, lex.trace)
    {
      e' := e;
      ghost var t := lex.trace;
      assert t == c0 + Tokens(e) + [Token(Mult, "*")];
      res := Advance();
      if res.Fail? {
        return;
      }
      assert Consumed() == t;
      ghost var f;
      res, f := Factor();
      if res.Fail? {
        return res, f;
      }
      ProdExtends(e, f, c0, p0);
      e' := Prod(e, f);
    }

    /** addition -> multiplication { (PLUS | MINUS) multiplication } */
    method Addition() returns (res: Outcome, ghost e: Expr)
      requires Valid() && Stand().Operand?
      modifies this, lex
      decreases lex.Remaining(), 5
      ensures res.Pass? ==> Valid() && IsAddition(e) && poliz == old(poliz) + Compile(e) &&
                            Consumed() == old(Consumed()) + Tokens(e) && lex.curType !in {Plus, Minus, Mult} &&
                            Stand() == Operator(old(Stand()).depth) &&
                            0 <= lex.Remaining() < old(lex.Remaining())
      ensures res.Fail? ==> Explains(res.error, e, lex.input, lex.trace)
    {
      ghost var p0, c0, d := poliz, Consumed(), Stand().depth;
      var arity := 1;
      var mask: seq<bool> := [];
      res, e := Multiplication();
      if res.Fail? {
        return;
      }
      while lex.curType == Plus || lex.curType == Minus
        invariant res.Pass? && Valid() && IsAddition(e) && SumArity(e) == arity && SumSigns(e) == mask && lex.curType != Mult
        invariant poliz == p0 + SumChain(e)
        invariant Consumed() == c0 + Tokens(e) && Stand() == Operator(d)
        invariant 0 <= lex.Remaining() < old(lex.Remaining())
        decreases lex.Remaining()
      {
        arity := arity + 1;
        if lex.curType == Plus {
          mask := mask + [true];
        } else {
          mask := mask + [false];
        }
        res, e := MoreTerms(e, p0, c0);
        if res.Fail? {
          return;
        }
      }
      SumCloses(e, p0);
      if arity > 1 {
        poliz := poliz + [Node.Addition(arity, mask)];
      }
    }

    /** One more (PLUS | MINUS) multiplication of a sum chain e. */
    method MoreTerms(ghost e: Expr, ghost p0: seq<Node>, ghost c0: seq<Token>) returns (res: Outcome, ghost e': Expr)
      requires Valid() && lex.curType in {Plus, Minus} && IsAddition(e) && Stand().Operator?
      requires poliz == p0 + SumChain(e) && Consumed() == c0 + Tokens(e)
      modifies this, lex
      decreases lex.Remaining(), 4
      ensures res.Pass? ==> Valid() && IsAddition(e') && e'.Sum? && e'.left == e && e'.plus == (old(lex.curType) == Plus) &&
                            poliz == p0 + SumChain(e') && Consumed() == c0 + Tokens(e') && lex.curType != Mult &&
                            Stand() == old(Stand()) &&
                            0 <= lex.Remaining() < old(lex.Remaining())
      ensures res.Fail? ==> Explains(res.error, e', lex.input, lex.trace)
    {
      e' := e;
      var plus := lex.curType == Plus;
      ghost var t := lex.trace;
      assert t == c0 + Tokens(e) + [OpToken(plus)];
      res := Advance();
      if res.Fail? {
        return;
      }
      assert Consumed() == t;
      ghost var m;
      res, m := Multiplication();
      if res.Fail? {
        return res, m;
      }
      SumExtends(e, plus, m, c0, p0);
      e' := Sum(e, plus, m);
    }

    /** Parses the whole input: one addition followed by END. */
    method ParseFull() returns (r: Result<seq<Node>>, ghost e: Expr)
      requires lex.Valid() && lex.trace == []
      modifies this, lex
      ensures r.Ok? ==> IsAddition(e) && r.value == Compile(e) && Walk(Tokens(e)) == Operator(0) &&
                        ReadFrom(lex.input, Tokens(e) + [Token(End, "")])
      ensures r == Err(ExcessText) ==>
                IsAddition(e) && lex.curType !in {End, Plus, Minus, Mult} && Walk(Tokens(e)) == Operator(0) &&
                ReadFrom(lex.input, Tokens(e) + [Current()])
      ensures r.Err? && r.error != ExcessText ==> Explains(r.error, e, lex.input, lex.trace)
    {
      poliz := [];
      e := Var("");
      var o := Advance();
      if o.Fail? {
        assert lex.trace == [] && o.error.LexError?;
        return Err(o.error), e;
      }
      assert Consumed() == [];
      var res;
      res, e := Addition();
      if res.Fail? {
        assert res.error != ExcessText;
        return Err(res.error), e;
      }
      assert [] + Tokens(e) == Tokens(e);
      assert Walk(Tokens(e)) == Operator(0);
      r := ExpectEnd(e);
    }

    /** The check after the top-level addition: the line must end here, or its remainder is excess text. */
    method ExpectEnd(ghost e: Expr) returns (r: Result<seq<Node>>)
      requires Valid() && IsAddition(e) && poliz == Compile(e) && Consumed() == Tokens(e)
      ensures r.Ok? <==> lex.curType == End
      ensures r.Ok? ==> r.value == Compile(e) && ReadFrom(lex.input, Tokens(e) + [Token(End, "")])
      ensures r.Err? ==> r.error == ExcessText && ReadFrom(lex.input, Tokens(e) + [Current()])
    {
      assert lex.trace == Tokens(e) + [Current()];
      assert ReadFrom(lex.input, lex.trace);
      if lex.curType != End {
        return Err(ExcessText);
      }
      r := Ok(poliz);
    }
  }
}
