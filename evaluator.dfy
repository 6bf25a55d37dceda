/** The evaluator: runs a postfix program on an integer stack with every
    identifier bound to one value x, and returns the value left on top. */
module Evaluation {
  import opened Failures
  import opened Poliz

  /** The product of a sequence, taken from its front. */
  lemma {:induction false} ProductCons(a: int, s: seq<int>)
    ensures Product([a] + s) == a * Product(s)
    decreases |s|
  {
    if s != [] {
      var t := [a] + s;
      assert t[..|t| - 1] == [a] + s[..|s| - 1];
      ProductCons(a, s[..|s| - 1]);
    } else {
      assert [a] + s == [a];
      assert [a][..0] == [];
    }
  }

  /** Extending a suffix product by one more value from below. */
  lemma ProductStep(s: seq<int>, j: nat)
    requires j < |s|
    ensures Product(s[j + 1..]) * s[j] == Product(s[j..])
  {
    ProductCons(s[j], s[j + 1..]);
    assert s[j..] == [s[j]] + s[j + 1..];
  }

  /** A program that runs to completion runs every prefix to completion. */
  lemma PrefixRuns(p: seq<Node>, i: nat, x: int)
    requires i < |p| && Exec(p, x, []).Some?
    ensures Exec(p[..i], x, []).Some? && Step(p[i], x, Exec(p[..i], x, []).value).Some?
    ensures Exec(p[..i + 1], x, []) == Step(p[i], x, Exec(p[..i], x, []).value)
  {
    assert p == p[..i + 1] + p[i + 1..];
    ExecAppend(p[..i + 1], p[i + 1..], x, []);
    assert p[..i + 1][..i] == p[..i];
  }

  class Evaluator {
    /** The value stack. */
    var output: seq<int>
    /** The value every identifier reads. */
    const x: int

    constructor(x: int)
      ensures this.x == x && output == []
    {
      this.x := x;
      output := [];
    }

    method VisitIdentifier(name: string)
      modifies this
      ensures output == old(output) + [x]
      ensures Step(Identifier(name), x, old(output)) == Some(output)
    {
      output := output + [x];
    }

    method VisitNumber(value: int)
      modifies this
      ensures output == old(output) + [value]
      ensures Step(Number(value), x, old(output)) == Some(output)
    {
      output := output + [value];
    }

    /** Multiplies the top arity values: each round pops the top two and
        pushes their product. */
    method PrintNAryItem(arity: nat)
      requires arity <= 1 || |output| >= arity
      modifies this
      ensures arity <= 1 ==> output == old(output)
      ensures arity > 1 ==>
                output == old(output)[..|old(output)| - arity] + [Product(old(output)[|old(output)| - arity..])]
      ensures arity >= 1 ==> Step(Multiplication(arity), x, old(output)) == Some(output)
    {
      if arity <= 1 {
        return;
      }
      var st := output;
      ghost var h := |st|;
      ghost var orig := st;
      assert orig[h - 1..] == [orig[h - 1]];
      assert Product([orig[h - 1]]) == orig[h - 1] by {
        assert [orig[h - 1]][..0] == [];
      }
      var i := 0;
      while i < arity - 1
        invariant 0 <= i <= arity - 1
        invariant st == orig[..h - i - 1] + [Product(orig[h - i - 1..])]
      {
        var val1 := st[|st| - 1];
        st := st[..|st| - 1];
        var val2 := st[|st| - 1];
        st := st[..|st| - 1];
        st := st + [val1 * val2];
        ProductStep(orig, h - i - 2);
        i := i + 1;
      }
      output := st;
    }

    /** Accumulates the top arity values from the deepest one up, adding or
        subtracting each next value as mask says. */
    method PrintNAryItem2(arity: nat, mask: seq<bool>)
      requires arity == 1 || (arity >= 2 && |output| >= arity && |mask| >= arity - 1)
      modifies this
      ensures arity == 1 ==> output == old(output)
      ensures arity > 1 ==>
                output == old(output)[..|old(output)| - arity] + [SignedSum(old(output)[|old(output)| - arity..], mask)]
      ensures Step(Addition(arity, mask), x, old(output)) == Some(output)
    {
      if arity == 1 {
        return;
      }
      var st := output;
      ghost var h := |st|;
      ghost var top := st[h - arity..];
      // pop the top arity values; the deepest ends up last
      var tmp: seq<int> := [];
      var i := 0;
      while i < arity
        invariant 0 <= i <= arity
        invariant st == output[..h - i]
        invariant |tmp| == i && forall j :: 0 <= j < i ==> tmp[j] == top[arity - 1 - j]
      {
        tmp := tmp + [st[|st| - 1]];
        st := st[..|st| - 1];
        i := i + 1;
      }
      var v := Accumulate(tmp, mask, top);
      output := st + [v];
    }

    /** Folds the reversed values tmp from its back: each round pops the
        accumulator and the next value and pushes their sum or difference. */
    static method Accumulate(tmp0: seq<int>, mask: seq<bool>, ghost top: seq<int>) returns (v: int)
      requires |tmp0| == |top| >= 2 && |mask| >= |top| - 1
      requires forall j :: 0 <= j < |top| ==> tmp0[j] == top[|top| - 1 - j]
      ensures v == SignedSum(top, mask)
    {
      var n := |tmp0|;
      var tmp := tmp0;
      assert top[..1] == [top[0]];
      var i := 0;
      while i < n - 1
        invariant 0 <= i <= n - 1
        invariant |tmp| == n - i
        invariant forall j :: 0 <= j < n - i - 1 ==> tmp[j] == top[n - 1 - j]
        invariant tmp[n - i - 1] == SignedSum(top[..i + 1], mask)
      {
        var val1 := tmp[|tmp| - 1];
        tmp := tmp[..|tmp| - 1];
        var val2 := tmp[|tmp| - 1];
        tmp := tmp[..|tmp| - 1];
        var val3;
        if mask[i] {
          val3 := val1 + val2;
        } else {
          val3 := val1 - val2;
        }
        tmp := tmp + [val3];
        assert top[..i + 2][..i + 1] == top[..i + 1];
        i := i + 1;
      }
      assert top[..n] == top;
      v := tmp[|tmp| - 1];
    }

    /** Dispatches on the node's kind. */
    method Visit(n: Node)
      requires Step(n, x, output).Some?
      modifies this
      ensures Step(n, x, old(output)) == Some(output)
    {
      match n
      case Identifier(name) => VisitIdentifier(name);
      case Number(value) => VisitNumber(value);
      case Addition(k, mask) => PrintNAryItem2(k, mask);
      case Multiplication(k) => PrintNAryItem(k);
    }

    /** Runs p from an empty stack and returns the value on top. */
    method Calculate(p: seq<Node>) returns (r: int)
      requires WellFormed(p)
      modifies this
      ensures Exec(p, x, []) == Some(output) && |output| >= 1 && r == output[|output| - 1]
      ensures Height(p, 0) == Some(1) ==> Computes(p, x, r)
    {
      output := [];
      ExecDefined(p, x, []);
      for i := 0 to |p|
        invariant Exec(p[..i], x, []) == Some(output)
      {
        PrefixRuns(p, i, x);
        Visit(p[i]);
      }
      assert p[..|p|] == p;
      r := output[|output| - 1];
      if Height(p, 0) == Some(1) {
        assert output == [r];
      }
    }
  }
}
