/** Sums of a function over a finite set. */
module Sums {
  import opened Common

  ghost function Sum(f: nat -> nat, s: set<nat>): nat {
    if s == {} then 0
    else
      var x :| x in s;
      f(x) + Sum(f, s - {x})
  }

  /** Any element may be taken out first. */
  lemma {:induction false} SumPick(f: nat -> nat, s: set<nat>, x: nat)
    requires x in s
    ensures Sum(f, s) == f(x) + Sum(f, s - {x})
  {
    var y :| y in s && Sum(f, s) == f(y) + Sum(f, s - {y});
    if x != y {
      SumPick(f, s - {y}, x);
      SumPick(f, s - {x}, y);
      assert s - {y} - {x} == s - {x} - {y};
    }
  }

  lemma {:induction false} SumsBalance(f: nat -> nat, g: nat -> nat, h: nat -> nat, k: nat -> nat, s: set<nat>)
    requires forall x :: x in s ==> f(x) + g(x) == h(x) + k(x)
    ensures Sum(f, s) + Sum(g, s) == Sum(h, s) + Sum(k, s)
  {
    if x :| x in s {
      SumPick(f, s, x);
      SumPick(g, s, x);
      SumPick(h, s, x);
      SumPick(k, s, x);
      SumsBalance(f, g, h, k, s - {x});
    }
  }

  /** Two functions that differ at most at one element. */
  lemma SumChangesAt(f: nat -> nat, g: nat -> nat, s: set<nat>, x: nat)
    requires x in s && forall y :: y in s && y != x ==> f(y) == g(y)
    ensures Sum(g, s) + f(x) == Sum(f, s) + g(x)
  {
    SumPick(f, s, x);
    SumPick(g, s, x);
    SumsBalance(f, f, g, g, s - {x});
  }

  lemma {:induction false} SumIsZeroIff(f: nat -> nat, s: set<nat>)
    ensures Sum(f, s) == 0 <==> forall x :: x in s ==> f(x) == 0
  {
    if x :| x in s {
      SumPick(f, s, x);
      SumIsZeroIff(f, s - {x});
    }
  }

  function Members(a: set<nat>): nat -> nat { x => Is(x in a) }

  /** Counting elements is summing ones. */
  lemma {:induction false} SumOfMembers(a: set<nat>, s: set<nat>)
    requires a <= s
    ensures Sum(Members(a), s) == |a|
  {
    if x :| x in s {
      SumPick(Members(a), s, x);
      SumOfMembers(a - {x}, s - {x});
      SumsBalance(Members(a), Members(a), Members(a - {x}), Members(a - {x}), s - {x});
    } else {
      assert a == {};
    }
  }
}
