/** Dual-number semantics of a postfix program: each stack entry carries a
    value and its derivative with respect to one variable. This is the
    reference the symbolic deriver is proved against; it uses only the
    binary rules (a, da) + (b, db) = (a + b, da + db) and
    (a, da) * (b, db) = (a * b, a * db + da * b). */
module Duals {
  import opened Failures
  import opened Poliz

  datatype Dual = Dual(v: int, d: int)

  function DAdd(a: Dual, b: Dual): Dual { Dual(a.v + b.v, a.d + b.d) }
  function DSub(a: Dual, b: Dual): Dual { Dual(a.v - b.v, a.d - b.d) }
  function DMul(a: Dual, b: Dual): Dual { Dual(a.v * b.v, a.v * b.d + a.d * b.v) }

  /** Signed accumulation of duals, as SignedSum does for integers. */
  function DSignedSum(ts: seq<Dual>, mask: seq<bool>): Dual
    requires |ts| >= 1 && |mask| >= |ts| - 1
  {
    if |ts| == 1 then ts[0]
    else
      var acc := DSignedSum(ts[..|ts| - 1], mask);
      if mask[|ts| - 2] then DAdd(acc, ts[|ts| - 1]) else DSub(acc, ts[|ts| - 1])
  }

  /** Product of duals, folded with the binary product rule from (1, 0). */
  function DProduct(ts: seq<Dual>): Dual
  {
    if ts == [] then Dual(1, 0) else DMul(DProduct(ts[..|ts| - 1]), ts[|ts| - 1])
  }

  /** Effect of one node on the dual stack: the variable named wrt has
      derivative 1, every other identifier and every literal 0. */
  function DStep(n: Node, x: int, wrt: string, st: seq<Dual>): Option<seq<Dual>>
  {
    match n
    case Identifier(name) => Some(st + [Dual(x, if name == wrt then 1 else 0)])
    case Number(c) => Some(st + [Dual(c, 0)])
    case Addition(k, mask) =>
      if k == 1 then Some(st)
      else if k == 0 || |st| < k || |mask| < k - 1 then None
      else Some(st[..|st| - k] + [DSignedSum(st[|st| - k..], mask)])
    case Multiplication(k) =>
      if k == 1 then Some(st)
      else if k == 0 || |st| < k then None
      else Some(st[..|st| - k] + [DProduct(st[|st| - k..])])
  }

  function DExec(p: seq<Node>, x: int, wrt: string, st: seq<Dual>): Option<seq<Dual>>
    decreases |p|
  {
    if p == [] then Some(st)
    else match DExec(p[..|p| - 1], x, wrt, st)
      case None => None
      case Some(s) => DStep(p[|p| - 1], x, wrt, s)
  }

  function Values(ts: seq<Dual>): (vs: seq<int>)
    ensures |vs| == |ts| && forall i :: 0 <= i < |ts| ==> vs[i] == ts[i].v
  {
    seq(|ts|, i requires 0 <= i < |ts| => ts[i].v)
  }

  function Slopes(ts: seq<Dual>): (ds: seq<int>)
    ensures |ds| == |ts| && forall i :: 0 <= i < |ts| ==> ds[i] == ts[i].d
  {
    seq(|ts|, i requires 0 <= i < |ts| => ts[i].d)
  }

  /** The i-th term of the generalised product rule: the product of vs with
      its i-th factor replaced by ds[i]. */
  function ProductTerm(vs: seq<int>, ds: seq<int>, i: nat): int
    requires |vs| == |ds| && i < |vs|
  {
    Product(vs[i := ds[i]])
  }

  /** The first m terms of the generalised product rule, in order. */
  function TermValues(vs: seq<int>, ds: seq<int>, m: nat): (ts: seq<int>)
    requires |vs| == |ds| && m <= |vs|
    ensures |ts| == m
  {
    if m == 0 then [] else TermValues(vs, ds, m - 1) + [ProductTerm(vs, ds, m - 1)]
  }

  /** Sum of the first m terms of the generalised product rule. */
  function TermSum(vs: seq<int>, ds: seq<int>, m: nat): int
    requires |vs| == |ds| && m <= |vs|
  {
    if m == 0 then 0 else TermSum(vs, ds, m - 1) + ProductTerm(vs, ds, m - 1)
  }

  // ---------------------------------------------------------------------
  // Lemmas

  /** Sum rule: the value and the derivative of a signed sum are the signed
      sums of the values and of the derivatives. */
  lemma {:induction false} DSignedSumParts(ts: seq<Dual>, mask: seq<bool>)
    requires |ts| >= 1 && |mask| >= |ts| - 1
    ensures DSignedSum(ts, mask) == Dual(SignedSum(Values(ts), mask), SignedSum(Slopes(ts), mask))
  {
    if |ts| > 1 {
      var q := ts[..|ts| - 1];
      DSignedSumParts(q, mask);
      assert Values(ts)[..|ts| - 1] == Values(q);
      assert Slopes(ts)[..|ts| - 1] == Slopes(q);
    }
  }

  lemma ProductTermExtend(vs: seq<int>, ds: seq<int>, b: int, db: int, i: nat)
    requires |vs| == |ds| && i < |vs|
    ensures ProductTerm(vs + [b], ds + [db], i) == ProductTerm(vs, ds, i) * b
  {
    var t := (vs + [b])[i := (ds + [db])[i]];
    assert t == vs[i := ds[i]] + [b];
    assert t[..|t| - 1] == vs[i := ds[i]];
  }

  lemma RightDistributes(a: int, p: int, b: int)
    ensures a * b + p * b == (a + p) * b
  {
  }

  lemma {:induction false} TermSumExtend(vs: seq<int>, ds: seq<int>, b: int, db: int, m: nat)
    requires |vs| == |ds| && m <= |vs|
    ensures TermSum(vs + [b], ds + [db], m) == TermSum(vs, ds, m) * b
  {
    if m > 0 {
      TermSumExtend(vs, ds, b, db, m - 1);
      ProductTermExtend(vs, ds, b, db, m - 1);
      RightDistributes(TermSum(vs, ds, m - 1), ProductTerm(vs, ds, m - 1), b);
    }
  }

  /** Generalised product rule: the derivative of a product of n factors is
      the sum over i of the product with factor i replaced by its
      derivative; its value is the product of the values. */
  lemma {:induction false} ProductRule(ts: seq<Dual>)
    ensures DProduct(ts).v == Product(Values(ts))
    ensures DProduct(ts).d == TermSum(Values(ts), Slopes(ts), |ts|)
  {
    if ts != [] {
      var n := |ts| - 1;
      var q, b := ts[..n], ts[n];
      ProductRule(q);
      var vs, ds := Values(q), Slopes(q);
      assert Values(ts) == vs + [b.v];
      assert Slopes(ts) == ds + [b.d];
      assert Values(ts)[..n] == vs;
      TermSumExtend(vs, ds, b.v, b.d, n);
      LastProductTerm(vs, ds, b.v, b.d);
      var pv, pd := Product(vs), TermSum(vs, ds, n);
      assert DProduct(ts) == Dual(pv * b.v, pv * b.d + pd * b.v);
    }
  }

  /** The last term of the product rule replaces the newest factor. */
  lemma LastProductTerm(vs: seq<int>, ds: seq<int>, b: int, db: int)
    requires |vs| == |ds|
    ensures ProductTerm(vs + [b], ds + [db], |vs|) == Product(vs) * db
  {
    var n := |vs|;
    var t := (vs + [b])[n := (ds + [db])[n]];
    assert t == vs + [db];
    assert t[..n] == vs;
  }

  /** The terms, accumulated with an all-true mask, give their sum. */
  lemma {:induction false} AllTrueSum(vs: seq<int>, ds: seq<int>, m: nat, mask: seq<bool>)
    requires |vs| == |ds| && 1 <= m <= |vs|
    requires |mask| >= m - 1 && forall i :: 0 <= i < |mask| ==> mask[i]
    ensures SignedSum(TermValues(vs, ds, m), mask) == TermSum(vs, ds, m)
  {
    if m > 1 {
      AllTrueSum(vs, ds, m - 1, mask);
      assert TermValues(vs, ds, m)[..m - 1] == TermValues(vs, ds, m - 1);
    }
  }

  /** The value component of the dual semantics is the integer semantics. */
  lemma {:induction false} DExecValues(p: seq<Node>, x: int, wrt: string, st: seq<Dual>)
    ensures Exec(p, x, Values(st)) ==
            match DExec(p, x, wrt, st)
            case None => None
            case Some(r) => Some(Values(r))
    decreases |p|
  {
    if p != [] {
      DExecValues(p[..|p| - 1], x, wrt, st);
      var r := DExec(p[..|p| - 1], x, wrt, st);
      if r.Some? {
        DStepValues(p[|p| - 1], x, wrt, r.value);
      }
    }
  }

  lemma DStepValues(n: Node, x: int, wrt: string, st: seq<Dual>)
    ensures Step(n, x, Values(st)) ==
            match DStep(n, x, wrt, st)
            case None => None
            case Some(r) => Some(Values(r))
  {
    var k := |st|;
    match n
    case Identifier(name) =>
      assert Values(st + [Dual(x, if name == wrt then 1 else 0)]) == Values(st) + [x];
    case Number(c) =>
      assert Values(st + [Dual(c, 0)]) == Values(st) + [c];
    case Addition(a, mask) =>
      if a > 1 && k >= a && |mask| >= a - 1 {
        AdditionValues(a, mask, x, wrt, st);
      }
    case Multiplication(a) =>
      if a > 1 && k >= a {
        MultiplicationValues(a, x, wrt, st);
      }
  }

  lemma AdditionValues(a: nat, mask: seq<bool>, x: int, wrt: string, st: seq<Dual>)
    requires 1 < a <= |st| && |mask| >= a - 1
    ensures Step(Addition(a, mask), x, Values(st)) == Some(Values(DStep(Addition(a, mask), x, wrt, st).value))
  {
    var top := st[|st| - a..];
    DSignedSumParts(top, mask);
    ReplaceTopValues(st, a, DSignedSum(top, mask));
  }

  lemma MultiplicationValues(a: nat, x: int, wrt: string, st: seq<Dual>)
    requires 1 < a <= |st|
    ensures Step(Multiplication(a), x, Values(st)) == Some(Values(DStep(Multiplication(a), x, wrt, st).value))
  {
    var top := st[|st| - a..];
    ProductRule(top);
    ReplaceTopValues(st, a, DProduct(top));
  }

  lemma ReplaceTopValues(st: seq<Dual>, a: nat, d: Dual)
    requires a <= |st|
    ensures Values(st)[|st| - a..] == Values(st[|st| - a..])
    ensures Values(st[..|st| - a] + [d]) == Values(st)[..|st| - a] + [d.v]
  {
  }
}
