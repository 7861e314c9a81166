/** The option type and three facts about finite sets that several modules share. */
module Wrappers {
  datatype Option<+T> = None | Some(value: T)

  /** A set that injects into another is no larger. */
  lemma {:induction false} InjectionBound<A(!new), B(!new)>(xs: set<A>, ys: set<B>, f: A --> B)
    requires forall x | x in xs :: f.requires(x) && f(x) in ys
    requires forall x, x' | x in xs && x' in xs && f(x) == f(x') :: x == x'
    ensures |xs| <= |ys|
  {
    if xs != {} {
      var x :| x in xs;
      InjectionBound(xs - {x}, ys - {f(x)}, f);
      assert |xs - {x}| == |xs| - 1;
      assert |ys - {f(x)}| == |ys| - 1;
    }
  }

  /** A subset is no larger. */
  lemma {:induction false} SubsetBound<A>(xs: set<A>, ys: set<A>)
    requires xs <= ys
    ensures |xs| <= |ys|
  {
    assert ys == xs + (ys - xs);
    assert |ys| == |xs| + |ys - xs|;
  }

  /** No finite set of naturals holds them all. */
  lemma {:induction false} FreshNat(used: set<nat>) returns (n: nat)
    ensures n !in used && forall x | x in used :: x < n
  {
    if used == {} {
      n := 0;
    } else {
      var x :| x in used;
      n := FreshNat(used - {x});
      assert forall y | y in used :: y == x || y in used - {x};
      n := if x < n then n else x + 1;
    }
  }
}
