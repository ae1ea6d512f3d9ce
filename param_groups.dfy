/**
 * The split of a network's parameters into a weight-decay group and a
 * no-decay group, which several training scripts write as the same loop:
 * walk the parameters in order and append each to one of two lists.
 */
module ParamGroups {

  /** A network parameter: its name and whether it receives gradients. */
  datatype Parameter = Parameter(name: string, requiresGrad: bool)

  /** The elements of `xs` satisfying `p`, in order. */
  function Filter<T>(xs: seq<T>, p: T -> bool): (r: seq<T>)
    ensures |r| <= |xs|
    ensures forall x | x in r :: x in xs && p(x)
  {
    if |xs| == 0 then []
    else Filter(xs[..|xs| - 1], p) + (if p(xs[|xs| - 1]) then [xs[|xs| - 1]] else [])
  }

  /** The elements of `xs` not satisfying `p`, in order. */
  function FilterNot<T>(xs: seq<T>, p: T -> bool): (r: seq<T>)
    ensures |r| <= |xs|
    ensures forall x | x in r :: x in xs && !p(x)
  {
    if |xs| == 0 then []
    else FilterNot(xs[..|xs| - 1], p) + (if p(xs[|xs| - 1]) then [] else [xs[|xs| - 1]])
  }

  /** An element of `xs` satisfying `p` is kept. */
  lemma {:induction false} FilterKeeps<T>(xs: seq<T>, p: T -> bool, x: T)
    requires x in xs && p(x)
    ensures x in Filter(xs, p)
  {
    if xs[|xs| - 1] != x {
      assert x in xs[..|xs| - 1] by {
        var i :| 0 <= i < |xs| && xs[i] == x;
        assert xs[..|xs| - 1][i] == x;
      }
      FilterKeeps(xs[..|xs| - 1], p, x);
    }
  }

  /** An element of `xs` not satisfying `p` is kept by the complement. */
  lemma {:induction false} FilterNotKeeps<T>(xs: seq<T>, p: T -> bool, x: T)
    requires x in xs && !p(x)
    ensures x in FilterNot(xs, p)
  {
    if xs[|xs| - 1] != x {
      assert x in xs[..|xs| - 1] by {
        var i :| 0 <= i < |xs| && xs[i] == x;
        assert xs[..|xs| - 1][i] == x;
      }
      FilterNotKeeps(xs[..|xs| - 1], p, x);
    }
  }

  /** The two groups together hold every element exactly as often as the input does. */
  lemma {:induction false} FilterPartition<T>(xs: seq<T>, p: T -> bool)
    ensures multiset(Filter(xs, p)) + multiset(FilterNot(xs, p)) == multiset(xs)
  {
    if |xs| > 0 {
      var init := xs[..|xs| - 1];
      FilterPartition(init, p);
      var y := xs[|xs| - 1];
      assert xs == init + [y];
      assert multiset(xs) == multiset(init) + multiset{y};
      if p(y) {
        assert Filter(xs, p) == Filter(init, p) + [y];
        assert FilterNot(xs, p) == FilterNot(init, p);
        assert multiset(Filter(xs, p)) == multiset(Filter(init, p)) + multiset{y};
      } else {
        assert Filter(xs, p) == Filter(init, p);
        assert FilterNot(xs, p) == FilterNot(init, p) + [y];
        assert multiset(FilterNot(xs, p)) == multiset(FilterNot(init, p)) + multiset{y};
      }
    }
  }

  /**
   * The shared loop: each element, in order, is appended to the first list
   * when it satisfies `p` and to the second otherwise.
   */
  method Partition<T>(xs: seq<T>, p: T -> bool) returns (yes: seq<T>, no: seq<T>)
    ensures yes == Filter(xs, p)
    ensures no == FilterNot(xs, p)
  {
    yes, no := [], [];
    for i := 0 to |xs|
      invariant yes == Filter(xs[..i], p)
      invariant no == FilterNot(xs[..i], p)
    {
      assert xs[..i + 1][..i] == xs[..i];
      if p(xs[i]) {
        yes := yes + [xs[i]];
      } else {
        no := no + [xs[i]];
      }
    }
    assert xs[..|xs|] == xs;
  }
}
