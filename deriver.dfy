/** The one-pass symbolic differentiator over a postfix program. It keeps two
    stacks of program fragments in lockstep with the evaluation stack:
    `operands[i]` recomputes the i-th value and `derivatives[i]` computes its
    derivative. */
module Differentiation {
  import opened Failures
  import opened Poliz
  import opened Duals

  datatype Stacks = Stacks(operands: seq<seq<Node>>, derivatives: seq<seq<Node>>)

  /** The first m product-rule terms built from factor fragments us and
      their derivative fragments dus: term i is us with its i-th fragment
      replaced by dus[i], followed by a Multiplication of the same arity. */
  function ProductTerms(us: seq<seq<Node>>, dus: seq<seq<Node>>, m: nat): seq<Node>
    requires |us| == |dus| && m <= |us|
  {
    if m == 0 then []
    else ProductTerms(us, dus, m - 1) + (Flatten(us[m - 1 := dus[m - 1]]) + [Multiplication(|us|)])
  }

  /** What visiting node n does to the stacks; wrt is the variable. */
  function Visit(s: Stacks, n: Node, wrt: string): (r: Stacks)
    requires |s.operands| == |s.derivatives| && HeightStep(n, |s.operands|).Some?
    ensures |r.operands| == |r.derivatives| == HeightStep(n, |s.operands|).value
    ensures var keep := HeightStep(n, |s.operands|).value - 1;
            n.Identifier? || n.Number? || n.arity > 1 ==>
              r.operands[..keep] == s.operands[..keep] &&
              r.derivatives[..keep] == s.derivatives[..keep]
  {
    var h := |s.operands|;
    match n
    case Identifier(name) =>
      Stacks(s.operands + [[n]], s.derivatives + [[Number(if name == wrt then 1 else 0)]])
    case Number(_) =>
      Stacks(s.operands + [[n]], s.derivatives + [[Number(0)]])
    case Addition(k, _) =>
      if k == 1 then s
      else
        Stacks(s.operands[..h - k] + [Flatten(s.operands[h - k..]) + [n]],
               s.derivatives[..h - k] + [Flatten(s.derivatives[h - k..]) + [n]])
    case Multiplication(k) =>
      if k == 1 then s
      else
        var us, dus := s.operands[h - k..], s.derivatives[h - k..];
        Stacks(s.operands[..h - k] + [Flatten(us) + [n]],
               s.derivatives[..h - k] + [ProductTerms(us, dus, k) + [Addition(k, AllTrue(k))]])
  }

  /** The stacks after visiting every node of p in order, from empty stacks.
      Both stacks always have the height of the evaluation stack. */
  function DeriveSpec(p: seq<Node>, wrt: string): (r: Stacks)
    requires Height(p, 0).Some?
    ensures |r.operands| == |r.derivatives| == Height(p, 0).value
    decreases |p|
  {
    if p == [] then Stacks([], [])
    else Visit(DeriveSpec(p[..|p| - 1], wrt), p[|p| - 1], wrt)
  }

  /** Result of derive: the top derivative fragment. */
  function Derivative(p: seq<Node>, wrt: string): seq<Node>
    requires Derivable(p)
  {
    var s := DeriveSpec(p, wrt);
    s.derivatives[|s.derivatives| - 1]
  }

  class Deriver {
    var derivatives: seq<seq<Node>>
    var operands: seq<seq<Node>>
    var variable: string

    constructor ()
      ensures derivatives == [] && operands == [] && variable == ""
    {
      derivatives, operands, variable := [], [], "";
    }

    function State(): Stacks
      reads this
    {
      Stacks(operands, derivatives)
    }

    /** Differentiates e with respect to v and returns the top derivative. */
    method Derive(e: seq<Node>, v: string) returns (r: seq<Node>)
      requires Derivable(e)
      modifies this
      ensures variable == v && State() == DeriveSpec(e, v)
      ensures r == Derivative(e, v)
    {
      derivatives := [];
      operands := [];
      variable := v;
      for i := 0 to |e|
        invariant variable == v
        invariant Height(e[..i], 0).Some?
        invariant State() == DeriveSpec(e[..i], v)
      {
        HeightPrefix(e, i + 1, 0);
        assert e[..i + 1][..i] == e[..i];
        match e[i]
        case Identifier(name) => VisitIdentifier(name);
        case Number(value) => VisitNumber(value);
        case Addition(arity, mask) => VisitAddition(arity, mask);
        case Multiplication(arity) => VisitMultiplication(arity);
      }
      assert e[..|e|] == e;
      r := derivatives[|derivatives| - 1];
    }

    method VisitIdentifier(name: string)
      requires |operands| == |derivatives|
      modifies this
      ensures variable == old(variable)
      ensures State() == Visit(old(State()), Identifier(name), variable)
    {
      operands := operands + [[Identifier(name)]];
      derivatives := derivatives + [[Number(if name == variable then 1 else 0)]];
    }

    method VisitNumber(value: int)
      requires |operands| == |derivatives|
      modifies this
      ensures variable == old(variable)
      ensures State() == Visit(old(State()), Number(value), variable)
    {
      operands := operands + [[Number(value)]];
      derivatives := derivatives + [[Number(0)]];
    }

    /** Pops the top k fragments of one stack in push order. */
    static method PopTop(stack: seq<seq<Node>>, k: nat) returns (top: seq<seq<Node>>, rest: seq<seq<Node>>)
      requires k <= |stack|
      ensures top == stack[|stack| - k..] && rest == stack[..|stack| - k]
    {
      top := [];
      var i := k;
      while i > 0
        invariant 0 <= i <= k
        invariant top == stack[|stack| - k..|stack| - i]
      {
        top := top + [stack[|stack| - i]];
        i := i - 1;
      }
      rest := stack[..|stack| - k];
    }

    /** Concatenates fragments into one, with add_back. */
    static method Concat(fs: seq<seq<Node>>) returns (r: seq<Node>)
      ensures r == Flatten(fs)
    {
      r := [];
      for i := 0 to |fs|
        invariant r == Flatten(fs[..i])
      {
        assert fs[..i + 1][..i] == fs[..i];
        r := AddBack(r, fs[i]);
      }
      assert fs[..|fs|] == fs;
    }

    /** Replaces the top k fragments of one stack by their concatenation
        followed by n, moving them in push order with add_back. */
    static method CombineTop(stack: seq<seq<Node>>, k: nat, n: Node) returns (r: seq<seq<Node>>)
      requires 2 <= k <= |stack|
      ensures r == stack[..|stack| - k] + [Flatten(stack[|stack| - k..]) + [n]]
    {
      var h := |stack|;
      var expr: seq<Node> := [];
      var i := k;
      while i > 0
        invariant 0 <= i <= k
        invariant expr == Flatten(stack[h - k..h - i])
      {
        assert stack[h - k..h - i + 1][..k - i] == stack[h - k..h - i];
        expr := AddBack(expr, stack[h - i]);
        i := i - 1;
      }
      assert stack[h - k..h] == stack[h - k..];
      r := stack[..h - k];
      expr := expr + [n];
      r := r + [expr];
    }

    method VisitAddition(arity: nat, mask: seq<bool>)
      requires |operands| == |derivatives| && HeightStep(Addition(arity, mask), |operands|).Some?
      modifies this
      ensures variable == old(variable)
      ensures State() == Visit(old(State()), Addition(arity, mask), variable)
    {
      if arity == 1 {
        return;
      }
      operands := CombineTop(operands, arity, Addition(arity, mask));
      derivatives := CombineTop(derivatives, arity, Addition(arity, mask));
    }

    /** Builds the n product-rule terms: for each i, every factor fragment in
        order with the i-th replaced by its derivative, then a Multiplication
        of the same arity. */
    static method BuildProductTerms(us: seq<seq<Node>>, dus: seq<seq<Node>>) returns (r: seq<Node>)
      requires |us| == |dus|
      ensures r == ProductTerms(us, dus, |us|)
    {
      var k := |us|;
      r := [];
      for i := 0 to k
        invariant r == ProductTerms(us, dus, i)
      {
        r := AppendTerm(r, us, dus, i);
        r := r + [Multiplication(k)];
      }
    }

    /** Appends every factor fragment in order, the i-th replaced by its
        derivative. */
    static method AppendTerm(r0: seq<Node>, us: seq<seq<Node>>, dus: seq<seq<Node>>, i: nat) returns (r: seq<Node>)
      requires |us| == |dus| && i < |us|
      ensures r == r0 + Flatten(us[i := dus[i]])
    {
      ghost var term := us[i := dus[i]];
      r := r0;
      for j := 0 to |us|
        invariant r == r0 + Flatten(term[..j])
      {
        var t := if j == i then dus[j] else us[j];
        assert term[..j + 1][..j] == term[..j];
        r := AddBack(r, t);
      }
      assert term[..|us|] == term;
    }

    method VisitMultiplication(arity: nat)
      requires |operands| == |derivatives| && HeightStep(Multiplication(arity), |operands|).Some?
      modifies this
      ensures variable == old(variable)
      ensures State() == Visit(old(State()), Multiplication(arity), variable)
    {
      if arity == 1 {
        return;
      }
      var itemOperands, itemDOperands;
      itemOperands, operands := PopTop(operands, arity);
      itemDOperands, derivatives := PopTop(derivatives, arity);

      var multiplExpr := Concat(itemOperands);
      multiplExpr := multiplExpr + [Multiplication(arity)];
      operands := operands + [multiplExpr];

      var multiplDeriv := BuildProductTerms(itemOperands, itemDOperands);
      multiplDeriv := multiplDeriv + [Addition(arity, AllTrue(arity))];
      derivatives := derivatives + [multiplDeriv];
    }
  }

  // ---------------------------------------------------------------------
  // Correctness against the dual-number semantics

  /** The stacks track the dual stack dst at the binding x: every operand
      fragment computes the value and every derivative fragment computes the
      derivative of the matching entry. */
  ghost predicate Tracks(s: Stacks, dst: seq<Dual>, x: int)
  {
    |s.operands| == |dst| && |s.derivatives| == |dst| &&
    forall i :: 0 <= i < |dst| ==>
      Computes(s.operands[i], x, dst[i].v) && Computes(s.derivatives[i], x, dst[i].d)
  }

  /** One product-rule term computes its product. */
  lemma ExecProductTerm(us: seq<seq<Node>>, dus: seq<seq<Node>>, vs: seq<int>, ds: seq<int>,
                        i: nat, x: int, st: seq<int>)
    requires |us| == |dus| == |vs| == |ds| && |us| >= 2 && i < |us|
    requires forall j :: 0 <= j < |us| ==> Computes(us[j], x, vs[j]) && Computes(dus[j], x, ds[j])
    ensures Exec(Flatten(us[i := dus[i]]) + [Multiplication(|us|)], x, st) == Some(st + [ProductTerm(vs, ds, i)])
  {
    var k := |us|;
    var term := us[i := dus[i]];
    var tvs := vs[i := ds[i]];
    ExecAppend(Flatten(term), [Multiplication(k)], x, st);
    ExecFlatten(term, tvs, x, st);
    var top := st + tvs;
    assert top[..|top| - k] == st;
    assert top[|top| - k..] == tvs;
    ExecSingle(Multiplication(k), x, top);
  }

  /** Product-rule terms compute TermValues of the values and derivatives. */
  lemma {:induction false} ExecProductTerms(us: seq<seq<Node>>, dus: seq<seq<Node>>, vs: seq<int>, ds: seq<int>,
                                             m: nat, x: int, st: seq<int>)
    requires |us| == |dus| == |vs| == |ds| && |us| >= 2 && m <= |us|
    requires forall i :: 0 <= i < |us| ==> Computes(us[i], x, vs[i]) && Computes(dus[i], x, ds[i])
    ensures Exec(ProductTerms(us, dus, m), x, st) == Some(st + TermValues(vs, ds, m))
  {
    if m == 0 {
      assert st + [] == st;
    } else {
      var i := m - 1;
      ExecProductTerms(us, dus, vs, ds, i, x, st);
      ExecAppend(ProductTerms(us, dus, i), Flatten(us[i := dus[i]]) + [Multiplication(|us|)], x, st);
      ExecProductTerm(us, dus, vs, ds, i, x, st + TermValues(vs, ds, i));
      assert st + TermValues(vs, ds, i) + [ProductTerm(vs, ds, i)] == st + TermValues(vs, ds, m);
    }
  }

  /** Pushing a fragment pair that computes a dual keeps tracking. */
  lemma PushTracks(s: Stacks, dst: seq<Dual>, x: int, f: seq<Node>, df: seq<Node>, e: Dual)
    requires Tracks(s, dst, x) && Computes(f, x, e.v) && Computes(df, x, e.d)
    ensures Tracks(Stacks(s.operands + [f], s.derivatives + [df]), dst + [e], x)
  {
    var r := Stacks(s.operands + [f], s.derivatives + [df]);
    var dst' := dst + [e];
    forall i | 0 <= i < |dst'|
      ensures Computes(r.operands[i], x, dst'[i].v) && Computes(r.derivatives[i], x, dst'[i].d)
    {
      if i < |dst| {
        assert r.operands[i] == s.operands[i] && r.derivatives[i] == s.derivatives[i] && dst'[i] == dst[i];
      }
    }
  }

  /** Replacing the top k entries by one fragment pair that computes a dual
      keeps tracking. */
  lemma ReplaceTopTracks(s: Stacks, dst: seq<Dual>, x: int, k: nat, f: seq<Node>, df: seq<Node>, e: Dual)
    requires Tracks(s, dst, x) && k <= |dst| && Computes(f, x, e.v) && Computes(df, x, e.d)
    ensures var h := |dst| - k;
            Tracks(Stacks(s.operands[..h] + [f], s.derivatives[..h] + [df]), dst[..h] + [e], x)
  {
    var h := |dst| - k;
    var s' := Stacks(s.operands[..h], s.derivatives[..h]);
    assert Tracks(s', dst[..h], x) by {
      forall i | 0 <= i < h
        ensures Computes(s'.operands[i], x, dst[..h][i].v) && Computes(s'.derivatives[i], x, dst[..h][i].d)
      {
        assert s'.operands[i] == s.operands[i] && s'.derivatives[i] == s.derivatives[i];
      }
    }
    PushTracks(s', dst[..h], x, f, df, e);
  }

  /** The top k fragments of a tracking stack compute the top k duals. */
  lemma TopComputes(s: Stacks, dst: seq<Dual>, x: int, k: nat)
    requires Tracks(s, dst, x) && k <= |dst|
    ensures var h := |dst| - k;
            forall i :: 0 <= i < k ==>
              Computes(s.operands[h..][i], x, Values(dst[h..])[i]) &&
              Computes(s.derivatives[h..][i], x, Slopes(dst[h..])[i])
  {
    var h := |dst| - k;
    forall i | 0 <= i < k
      ensures Computes(s.operands[h..][i], x, Values(dst[h..])[i]) &&
              Computes(s.derivatives[h..][i], x, Slopes(dst[h..])[i])
    {
      assert s.operands[h..][i] == s.operands[h + i];
      assert s.derivatives[h..][i] == s.derivatives[h + i];
      assert dst[h..][i] == dst[h + i];
    }
  }

  /** Sum rule on fragments: the concatenated fragments followed by the
      Addition compute the signed sum of their values. */
  lemma ExecSumFragment(fs: seq<seq<Node>>, vs: seq<int>, n: Node, x: int)
    requires n.Addition? && n.arity == |fs| == |vs| >= 2 && |n.mask| >= n.arity - 1
    requires forall i :: 0 <= i < |fs| ==> Computes(fs[i], x, vs[i])
    ensures Computes(Flatten(fs) + [n], x, SignedSum(vs, n.mask))
  {
    ExecFlatten(fs, vs, x, []);
    assert [] + vs == vs;
    StepAdditionExact(n.arity, n.mask, x, vs);
    AppendNodeComputes(Flatten(fs), n, x, vs, SignedSum(vs, n.mask));
  }

  /** The operand fragment of a product computes the product. */
  lemma ExecProductFragment(fs: seq<seq<Node>>, vs: seq<int>, x: int)
    requires |fs| == |vs| >= 2
    requires forall i :: 0 <= i < |fs| ==> Computes(fs[i], x, vs[i])
    ensures Computes(Flatten(fs) + [Multiplication(|fs|)], x, Product(vs))
  {
    ExecFlatten(fs, vs, x, []);
    assert [] + vs == vs;
    StepMultiplicationExact(|fs|, x, vs);
    AppendNodeComputes(Flatten(fs), Multiplication(|fs|), x, vs, Product(vs));
  }

  /** The product-rule terms, run from an empty stack, leave the terms'
      values. */
  lemma ComputesProductTerms(us: seq<seq<Node>>, dus: seq<seq<Node>>, vs: seq<int>, ds: seq<int>, x: int)
    requires |us| == |dus| == |vs| == |ds| >= 2
    requires forall i :: 0 <= i < |us| ==> Computes(us[i], x, vs[i]) && Computes(dus[i], x, ds[i])
    ensures Exec(ProductTerms(us, dus, |us|), x, []) == Some(TermValues(vs, ds, |us|))
  {
    var tv := TermValues(vs, ds, |us|);
    ExecProductTerms(us, dus, vs, ds, |us|, x, []);
    assert [] + tv == tv;
  }

  /** Product rule on fragments: a fragment leaving the n product-rule
      terms, followed by an all-true Addition, computes their sum. */
  lemma ExecProductRuleFragment(pt: seq<Node>, vs: seq<int>, ds: seq<int>, x: int)
    requires |vs| == |ds| >= 2
    requires Exec(pt, x, []) == Some(TermValues(vs, ds, |vs|))
    ensures Computes(pt + [Addition(|vs|, AllTrue(|vs|))], x, TermSum(vs, ds, |vs|))
  {
    var k := |vs|;
    var tv := TermValues(vs, ds, k);
    StepAdditionExact(k, AllTrue(k), x, tv);
    AllTrueSum(vs, ds, k, AllTrue(k));
    AppendNodeComputes(pt, Addition(k, AllTrue(k)), x, tv, TermSum(vs, ds, k));
  }

  /** A fragment-stack transition preserves tracking: each visit does to the
      fragments what the dual semantics does to the values and derivatives. */
  lemma VisitTracks(s: Stacks, n: Node, wrt: string, x: int, dst: seq<Dual>)
    requires Tracks(s, dst, x) && DStep(n, x, wrt, dst).Some?
    ensures HeightStep(n, |dst|).Some?
    ensures Tracks(Visit(s, n, wrt), DStep(n, x, wrt, dst).value, x)
  {
    match n
    case Identifier(name) =>
      var dn := Number(if name == wrt then 1 else 0);
      ExecSingle(n, x, []);
      ExecSingle(dn, x, []);
      assert [] + [x] == [x] && [] + [dn.value] == [dn.value];
      PushTracks(s, dst, x, [n], [dn], Dual(x, if name == wrt then 1 else 0));
    case Number(c) =>
      ExecSingle(n, x, []);
      ExecSingle(Number(0), x, []);
      assert [] + [c] == [c] && [] + [0] == [0];
      PushTracks(s, dst, x, [n], [Number(0)], Dual(c, 0));
    case Addition(k, mask) =>
      if k > 1 {
        VisitAdditionTracks(s, k, mask, wrt, x, dst);
      }
    case Multiplication(k) =>
      if k > 1 {
        VisitMultiplicationTracks(s, k, wrt, x, dst);
      }
  }

  lemma VisitAdditionTracks(s: Stacks, k: nat, mask: seq<bool>, wrt: string, x: int, dst: seq<Dual>)
    requires Tracks(s, dst, x) && 2 <= k <= |dst| && |mask| >= k - 1
    ensures Tracks(Visit(s, Addition(k, mask), wrt), DStep(Addition(k, mask), x, wrt, dst).value, x)
  {
    var h := |dst|;
    var n := Addition(k, mask);
    var top := dst[h - k..];
    var us, dus := s.operands[h - k..], s.derivatives[h - k..];
    TopComputes(s, dst, x, k);
    ExecSumFragment(us, Values(top), n, x);
    ExecSumFragment(dus, Slopes(top), n, x);
    DSignedSumParts(top, mask);
    ReplaceTopTracks(s, dst, x, k, Flatten(us) + [n], Flatten(dus) + [n], DSignedSum(top, mask));
  }

  lemma VisitMultiplicationTracks(s: Stacks, k: nat, wrt: string, x: int, dst: seq<Dual>)
    requires Tracks(s, dst, x) && 2 <= k <= |dst|
    ensures Tracks(Visit(s, Multiplication(k), wrt), DStep(Multiplication(k), x, wrt, dst).value, x)
  {
    var h := |dst|;
    var n := Multiplication(k);
    var top := dst[h - k..];
    var us, dus := s.operands[h - k..], s.derivatives[h - k..];
    TopComputes(s, dst, x, k);
    ExecProductFragment(us, Values(top), x);
    ComputesProductTerms(us, dus, Values(top), Slopes(top), x);
    ExecProductRuleFragment(ProductTerms(us, dus, k), Values(top), Slopes(top), x);
    ProductRule(top);
    ReplaceTopTracks(s, dst, x, k, Flatten(us) + [n],
                     ProductTerms(us, dus, k) + [Addition(k, AllTrue(k))], DProduct(top));
  }

  /** The whole pass tracks the dual semantics of the program. */
  lemma {:induction false} DeriveTracks(p: seq<Node>, wrt: string, x: int)
    requires DExec(p, x, wrt, []).Some?
    ensures Height(p, 0).Some?
    ensures Tracks(DeriveSpec(p, wrt), DExec(p, x, wrt, []).value, x)
    decreases |p|
  {
    if p != [] {
      var q := p[..|p| - 1];
      DeriveTracks(q, wrt, x);
      VisitTracks(DeriveSpec(q, wrt), p[|p| - 1], wrt, x, DExec(q, x, wrt, []).value);
    }
  }

  /** Main theorem: on a well-formed program, the fragment returned by
      derive computes the derivative component of the dual semantics of the
      program's result, and the matching operand fragment recomputes the
      program's own result. */
  lemma DeriveCorrect(p: seq<Node>, wrt: string, x: int)
    requires WellFormed(p)
    ensures Exec(p, x, []).Some? && DExec(p, x, wrt, []).Some?
    ensures var s := DeriveSpec(p, wrt);
            var top := |s.derivatives| - 1;
            var vals := Exec(p, x, []).value;
            var duals := DExec(p, x, wrt, []).value;
            |duals| == |vals| == |s.derivatives| &&
            duals[top].v == vals[top] &&
            Exec(s.derivatives[top], x, []) == Some([duals[top].d]) &&
            Exec(s.operands[top], x, []) == Some([vals[top]])
  {
    ExecDefined(p, x, []);
    DExecValues(p, x, wrt, []);
    assert Values([]) == [];
    DeriveTracks(p, wrt, x);
  }

  /** The derivative is itself a well-formed program leaving one value, so
      the evaluator can run it. */
  lemma DerivativeWellFormed(p: seq<Node>, wrt: string)
    requires WellFormed(p)
    ensures WellFormed(Derivative(p, wrt))
    ensures Height(Derivative(p, wrt), 0) == Some(1)
  {
    DeriveCorrect(p, wrt, 0);
    ExecDefined(Derivative(p, wrt), 0, []);
  }
}
