/** The postfix program ("Poliz") shared by the parser, the deriver and the
    evaluator, together with its reference semantics: a left-to-right fold
    over an integer stack. */
module Poliz {
  import opened Failures

  /** One immutable postfix instruction. */
  datatype Node =
    | Identifier(name: string)
    | Number(value: int)
    | Addition(arity: nat, mask: seq<bool>)  // mask[i]: term i+1 is added (true) or subtracted (false)
    | Multiplication(arity: nat)

  /** All-true mask of length n, as the product rule builds it. */
  function AllTrue(n: nat): (m: seq<bool>)
    ensures |m| == n && forall i :: 0 <= i < n ==> m[i]
  {
    seq(n, _ => true)
  }

  /** Concatenation of a sequence of fragments, in order. */
  function Flatten<T>(fs: seq<seq<T>>): seq<T>
  {
    if fs == [] then [] else Flatten(fs[..|fs| - 1]) + fs[|fs| - 1]
  }

  // ---------------------------------------------------------------------
  // Stack discipline

  /** Height of the evaluation stack after an n-ary node of arity k is applied
      to a stack of height h: arity 1 is a no-op, arity 0 is malformed. */
  function NAryHeight(k: nat, h: nat): Option<nat>
  {
    if k == 0 then None
    else if k == 1 then Some(h)
    else if h < k then None
    else Some(h - k + 1)
  }

  /** Stack height after one node from height h; None on underflow or
      arity 0. An operand pushes one value; an n-ary node of arity k pops k
      values and pushes one, so it never grows the stack, and a stack that
      held a value still holds one. */
  function HeightStep(n: Node, h: nat): (r: Option<nat>)
    ensures (n.Identifier? || n.Number?) ==> r == Some(h + 1)
    ensures (n.Addition? || n.Multiplication?) ==>
              (r.None? <==> n.arity == 0 || (n.arity > 1 && h < n.arity))
    ensures (n.Addition? || n.Multiplication?) && r.Some? ==> r.value + n.arity == h + 1
    ensures r.Some? ==> r.value <= h + 1
    ensures r.Some? && (n.Addition? || n.Multiplication?) ==> r.value <= h
    ensures r.Some? && h >= 1 ==> r.value >= 1
  {
    match n
    case Identifier(_) => Some(h + 1)
    case Number(_) => Some(h + 1)
    case Addition(k, _) => NAryHeight(k, h)
    case Multiplication(k) => NAryHeight(k, h)
  }

  /** Stack height after running p from height h; None on underflow. */
  function Height(p: seq<Node>, h: nat): Option<nat>
    decreases |p|
  {
    if p == [] then Some(h)
    else match Height(p[..|p| - 1], h)
      case None => None
      case Some(g) => HeightStep(p[|p| - 1], g)
  }

  /** Every Addition carries a sign for each term after the first. */
  predicate MasksCover(p: seq<Node>)
  {
    forall i :: 0 <= i < |p| && p[i].Addition? ==> |p[i].mask| >= p[i].arity - 1
  }

  /** A program the deriver accepts: it never underflows and leaves a value. */
  predicate Derivable(p: seq<Node>)
  {
    Height(p, 0).Some? && Height(p, 0).value >= 1
  }

  /** A program the evaluator accepts. */
  predicate WellFormed(p: seq<Node>)
  {
    Derivable(p) && MasksCover(p)
  }

  // ---------------------------------------------------------------------
  // Reference semantics

  /** Left-to-right accumulation: term 0, then term i+1 added or subtracted
      according to mask[i]. */
  function SignedSum(ts: seq<int>, mask: seq<bool>): int
    requires |ts| >= 1 && |mask| >= |ts| - 1
  {
    if |ts| == 1 then ts[0]
    else
      var acc := SignedSum(ts[..|ts| - 1], mask);
      if mask[|ts| - 2] then acc + ts[|ts| - 1] else acc - ts[|ts| - 1]
  }

  function Product(ts: seq<int>): int
  {
    if ts == [] then 1 else Product(ts[..|ts| - 1]) * ts[|ts| - 1]
  }

  /** Effect of one node on the value stack; every identifier reads the one
      bound value x. */
  function Step(n: Node, x: int, st: seq<int>): (r: Option<seq<int>>)
    ensures r.Some? <==> HeightStep(n, |st|).Some? && (n.Addition? ==> |n.mask| >= n.arity - 1)
    ensures r.Some? ==> HeightStep(n, |st|) == Some(|r.value|)
  {
    match n
    case Identifier(_) => Some(st + [x])
    case Number(v) => Some(st + [v])
    case Addition(k, mask) =>
      if k == 1 then Some(st)
      else if k == 0 || |st| < k || |mask| < k - 1 then None
      else Some(st[..|st| - k] + [SignedSum(st[|st| - k..], mask)])
    case Multiplication(k) =>
      if k == 1 then Some(st)
      else if k == 0 || |st| < k then None
      else Some(st[..|st| - k] + [Product(st[|st| - k..])])
  }

  /** Runs p on the stack st. */
  function Exec(p: seq<Node>, x: int, st: seq<int>): Option<seq<int>>
    decreases |p|
  {
    if p == [] then Some(st)
    else match Exec(p[..|p| - 1], x, st)
      case None => None
      case Some(s) => Step(p[|p| - 1], x, s)
  }

  /** Fragment f, run on an empty stack, leaves exactly the value v. */
  ghost predicate Computes(f: seq<Node>, x: int, v: int)
  {
    Exec(f, x, []) == Some([v])
  }

  // ---------------------------------------------------------------------
  // Lemmas

  lemma {:induction false} SignedSumPrefix(ts: seq<int>, mask: seq<bool>, extra: seq<bool>)
    requires |ts| >= 1 && |mask| >= |ts| - 1
    ensures SignedSum(ts, mask + extra) == SignedSum(ts, mask)
  {
    if |ts| > 1 {
      SignedSumPrefix(ts[..|ts| - 1], mask, extra);
    }
  }

  /** Running a concatenation runs its halves one after the other. */
  lemma {:induction false} ExecAppend(a: seq<Node>, b: seq<Node>, x: int, st: seq<int>)
    ensures Exec(a + b, x, st) ==
            match Exec(a, x, st)
            case None => None
            case Some(s) => Exec(b, x, s)
    decreases |b|
  {
    if b == [] {
      assert a + b == a;
    } else {
      var b' := b[..|b| - 1];
      assert (a + b)[..|a + b| - 1] == a + b';
      assert (a + b)[|a + b| - 1] == b[|b| - 1];
      ExecAppend(a, b', x, st);
    }
  }

  lemma ExecSingle(n: Node, x: int, st: seq<int>)
    ensures Exec([n], x, st) == Step(n, x, st)
  {
    assert [n][..0] == [];
  }

  lemma StepFrame(n: Node, x: int, pre: seq<int>, st: seq<int>)
    requires Step(n, x, st).Some?
    ensures Step(n, x, pre + st) == Some(pre + Step(n, x, st).value)
  {
    match n
    case Identifier(_) =>
      assert pre + st + [x] == pre + (st + [x]);
    case Number(v) =>
      assert pre + st + [v] == pre + (st + [v]);
    case Addition(k, mask) =>
      if k > 1 {
        var s := SignedSum(st[|st| - k..], mask);
        assert (pre + st)[..|pre + st| - k] == pre + st[..|st| - k];
        assert (pre + st)[|pre + st| - k..] == st[|st| - k..];
        assert pre + st[..|st| - k] + [s] == pre + (st[..|st| - k] + [s]);
      }
    case Multiplication(k) =>
      if k > 1 {
        var s := Product(st[|st| - k..]);
        assert (pre + st)[..|pre + st| - k] == pre + st[..|st| - k];
        assert (pre + st)[|pre + st| - k..] == st[|st| - k..];
        assert pre + st[..|st| - k] + [s] == pre + (st[..|st| - k] + [s]);
      }
  }

  /** An n-ary Addition applied to exactly its arity of values leaves their
      signed sum. */
  lemma StepAdditionExact(k: nat, mask: seq<bool>, x: int, vs: seq<int>)
    requires k == |vs| >= 2 && |mask| >= k - 1
    ensures Step(Addition(k, mask), x, vs) == Some([SignedSum(vs, mask)])
  {
    assert vs[..|vs| - k] == [] && vs[|vs| - k..] == vs;
    assert [] + [SignedSum(vs, mask)] == [SignedSum(vs, mask)];
  }

  /** An n-ary Multiplication applied to exactly its arity of values leaves
      their product. */
  lemma StepMultiplicationExact(k: nat, x: int, vs: seq<int>)
    requires k == |vs| >= 2
    ensures Step(Multiplication(k), x, vs) == Some([Product(vs)])
  {
    assert vs[..|vs| - k] == [] && vs[|vs| - k..] == vs;
    assert [] + [Product(vs)] == [Product(vs)];
  }

  /** A fragment leaving vs, followed by a node that folds vs into v,
      computes v. */
  lemma AppendNodeComputes(f: seq<Node>, n: Node, x: int, vs: seq<int>, v: int)
    requires Exec(f, x, []) == Some(vs) && Step(n, x, vs) == Some([v])
    ensures Computes(f + [n], x, v)
  {
    assert (f + [n])[..|f|] == f;
  }

  /** A program only touches the top of the stack it runs on. */
  lemma {:induction false} ExecFrame(p: seq<Node>, x: int, pre: seq<int>, st: seq<int>)
    requires Exec(p, x, st).Some?
    ensures Exec(p, x, pre + st) == Some(pre + Exec(p, x, st).value)
    decreases |p|
  {
    if p != [] {
      ExecFrame(p[..|p| - 1], x, pre, st);
      StepFrame(p[|p| - 1], x, pre, Exec(p[..|p| - 1], x, st).value);
    }
  }

  /** A fragment that computes v pushes v onto any stack. */
  lemma ComputesOnAnyStack(f: seq<Node>, x: int, v: int, st: seq<int>)
    requires Computes(f, x, v)
    ensures Exec(f, x, st) == Some(st + [v])
  {
    ExecFrame(f, x, st, []);
    assert st + [] == st;
  }

  /** Fragments computing vs, concatenated, push vs in order. */
  lemma {:induction false} ExecFlatten(fs: seq<seq<Node>>, vs: seq<int>, x: int, st: seq<int>)
    requires |fs| == |vs|
    requires forall i :: 0 <= i < |fs| ==> Computes(fs[i], x, vs[i])
    ensures Exec(Flatten(fs), x, st) == Some(st + vs)
    decreases |fs|
  {
    if fs == [] {
      assert st + vs == st;
    } else {
      var n := |fs| - 1;
      ExecFlatten(fs[..n], vs[..n], x, st);
      ExecAppend(Flatten(fs[..n]), fs[n], x, st);
      ComputesOnAnyStack(fs[n], x, vs[n], st + vs[..n]);
      assert st + vs[..n] + [vs[n]] == st + vs;
    }
  }

  /** Exec is defined exactly on the programs whose stack discipline and
      masks are sound, and then leaves Height(p, |st|) values. */
  lemma {:induction false} ExecDefined(p: seq<Node>, x: int, st: seq<int>)
    ensures Exec(p, x, st).Some? <==> Height(p, |st|).Some? && MasksCover(p)
    ensures Exec(p, x, st).Some? ==> |Exec(p, x, st).value| == Height(p, |st|).value
    decreases |p|
  {
    if p != [] {
      var q, n := p[..|p| - 1], p[|p| - 1];
      ExecDefined(q, x, st);
      assert MasksCover(p) <==> MasksCover(q) && (n.Addition? ==> |n.mask| >= n.arity - 1) by {
        if MasksCover(q) && (n.Addition? ==> |n.mask| >= n.arity - 1) {
          forall i | 0 <= i < |p| && p[i].Addition?
            ensures |p[i].mask| >= p[i].arity - 1
          {
            if i < |q| { assert p[i] == q[i]; }
          }
        }
        if MasksCover(p) {
          forall i | 0 <= i < |q| && q[i].Addition?
            ensures |q[i].mask| >= q[i].arity - 1
          {
            assert q[i] == p[i];
          }
          assert p[|p| - 1] == n;
        }
      }
    }
  }

  /** Stack heights compose over a concatenation. */
  lemma {:induction false} HeightAppend(a: seq<Node>, b: seq<Node>, h: nat)
    ensures Height(a + b, h) ==
            match Height(a, h)
            case None => None
            case Some(g) => Height(b, g)
    decreases |b|
  {
    if b == [] {
      assert a + b == a;
    } else {
      var b' := b[..|b| - 1];
      assert (a + b)[..|a + b| - 1] == a + b';
      assert (a + b)[|a + b| - 1] == b[|b| - 1];
      HeightAppend(a, b', h);
    }
  }

  lemma HeightPrefix(p: seq<Node>, i: nat, h: nat)
    requires i <= |p| && Height(p, h).Some?
    ensures Height(p[..i], h).Some?
  {
    assert p == p[..i] + p[i..];
    HeightAppend(p[..i], p[i..], h);
  }

  // ---------------------------------------------------------------------
  // add_back

  /** Appends every element of other to dst, one push at a time. */
  method AddBack<T>(dst: seq<T>, other: seq<T>) returns (r: seq<T>)
    ensures r == dst + other
  {
    r := dst;
    for i := 0 to |other|
      invariant r == dst + other[..i]
    {
      r := r + [other[i]];
    }
    assert other[..|other|] == other;
  }
}
