/** Sums, concatenations and runs over sequences, defined from the right so that appending unfolds. */
module Sequences {
  import opened Wrappers

  function Sum<T>(s: seq<T>, f: T -> nat): nat {
    if s == [] then 0 else Sum(s[..|s| - 1], f) + f(s[|s| - 1])
  }

  function Flatten<T>(s: seq<seq<T>>): seq<T> {
    if s == [] then [] else Flatten(s[..|s| - 1]) + s[|s| - 1]
  }

  lemma SumAppend<T>(s: seq<T>, x: T, f: T -> nat)
    ensures Sum(s + [x], f) == Sum(s, f) + f(x)
  {
    assert (s + [x])[..|s|] == s;
  }

  /** Replacing one element changes the sum by the difference of the two summands. */
  lemma {:induction false} SumUpdate<T>(s: seq<T>, i: nat, x: T, f: T -> nat)
    requires i < |s|
    ensures Sum(s[i := x], f) + f(s[i]) == Sum(s, f) + f(x)
  {
    var n := |s| - 1;
    if i == n {
      assert s[i := x][..n] == s[..n];
    } else {
      assert s[i := x][..n] == s[..n][i := x];
      SumUpdate(s[..n], i, x, f);
    }
  }

  lemma {:induction false} SumAtLeast<T>(s: seq<T>, i: nat, f: T -> nat)
    requires i < |s|
    ensures Sum(s, f) >= f(s[i])
  {
    if i < |s| - 1 {
      SumAtLeast(s[..|s| - 1], i, f);
    }
  }

  lemma {:induction false} SumZero<T>(s: seq<T>, f: T -> nat)
    requires forall x :: x in s ==> f(x) == 0
    ensures Sum(s, f) == 0
  {
    if s != [] {
      SumZero(s[..|s| - 1], f);
    }
  }

  lemma {:induction false} SumBounded<T>(s: seq<T>, f: T -> nat, g: T -> nat)
    requires forall x :: x in s ==> f(x) <= g(x)
    ensures Sum(s, f) <= Sum(s, g)
  {
    if s != [] {
      SumBounded(s[..|s| - 1], f, g);
    }
  }

  lemma {:induction false} SumConstant<T>(s: seq<T>, f: T -> nat, k: nat)
    requires forall x :: x in s ==> f(x) == k
    ensures Sum(s, f) == |s| * k
  {
    if s != [] {
      SumConstant(s[..|s| - 1], f, k);
      assert |s| * k == (|s| - 1) * k + k;
    }
  }

  /** If f exceeds g by at most one everywhere, and not at i, the sums differ by at most the other elements. */
  lemma {:induction false} SumSlack<T>(s: seq<T>, f: T -> nat, g: T -> nat, i: nat)
    requires i < |s| && f(s[i]) <= g(s[i])
    requires forall x :: x in s ==> f(x) <= g(x) + 1
    ensures Sum(s, f) <= Sum(s, g) + |s| - 1
  {
    var n := |s| - 1;
    if i == n {
      SumAtMostOneMore(s[..n], f, g);
    } else {
      SumSlack(s[..n], f, g, i);
    }
  }

  lemma {:induction false} SumAtMostOneMore<T>(s: seq<T>, f: T -> nat, g: T -> nat)
    requires forall x :: x in s ==> f(x) <= g(x) + 1
    ensures Sum(s, f) <= Sum(s, g) + |s|
  {
    if s != [] {
      SumAtMostOneMore(s[..|s| - 1], f, g);
    }
  }

  lemma {:induction false} SumAtMost<T>(s: seq<T>, f: T -> nat, k: nat)
    requires forall x :: x in s ==> f(x) <= k
    ensures Sum(s, f) <= |s| * k
  {
    if s != [] {
      SumAtMost(s[..|s| - 1], f, k);
      assert |s| * k == (|s| - 1) * k + k;
    }
  }

  /** All elements but i contribute at most k each. */
  lemma {:induction false} SumOthers<T>(s: seq<T>, f: T -> nat, k: nat, i: nat)
    requires i < |s| && forall x :: x in s ==> f(x) <= k
    ensures Sum(s, f) <= f(s[i]) + (|s| - 1) * k
  {
    var n := |s| - 1;
    if i == n {
      SumAtMost(s[..n], f, k);
    } else {
      SumOthers(s[..n], f, k, i);
      assert n * k == (n - 1) * k + k;
    }
  }

  /** A sum of terms of at most k reaches its maximum exactly if every term does. */
  lemma SumFull<T>(s: seq<T>, f: T -> nat, k: nat)
    requires forall x :: x in s ==> f(x) <= k
    ensures Sum(s, f) == |s| * k <==> forall x :: x in s ==> f(x) == k
  {
    if x :| x in s && f(x) != k {
      var i: nat :| i < |s| && s[i] == x;
      SumOthers(s, f, k, i);
      assert |s| * k == (|s| - 1) * k + k;
    } else {
      SumConstant(s, f, k);
    }
  }

  /** All elements but i contribute at least k each. */
  lemma {:induction false} SumOthersAtLeast<T>(s: seq<T>, f: T -> nat, k: nat, i: nat)
    requires i < |s| && forall j: nat :: j < |s| && j != i ==> f(s[j]) >= k
    ensures Sum(s, f) >= f(s[i]) + (|s| - 1) * k
  {
    var n := |s| - 1;
    if i == n {
      SumLeast(s[..n], f, k);
    } else {
      SumOthersAtLeast(s[..n], f, k, i);
      assert n * k == (n - 1) * k + k;
    }
  }

  lemma {:induction false} SumLeast<T>(s: seq<T>, f: T -> nat, k: nat)
    requires forall x :: x in s ==> f(x) >= k
    ensures Sum(s, f) >= |s| * k
  {
    if s != [] {
      SumLeast(s[..|s| - 1], f, k);
      assert |s| * k == (|s| - 1) * k + k;
    }
  }

  // Runs of a step system.

  /** The state after a schedule, if every step of the schedule was possible when it was taken. */
  function Fold<S, A>(step: (S, A) -> Option<S>, s: S, schedule: seq<A>): Option<S> {
    if schedule == [] then Some(s)
    else
      match Fold(step, s, schedule[..|schedule| - 1])
      case None => None
      case Some(r) => step(r, schedule[|schedule| - 1])
  }

  /** A run of a longer schedule is a run of its first part followed by one of the rest. */
  lemma {:induction false} FoldAppend<S, A>(step: (S, A) -> Option<S>, s: S, first: seq<A>, second: seq<A>)
    ensures var r := Fold(step, s, first);
            Fold(step, s, first + second) == if r.Some? then Fold(step, r.value, second) else None
  {
    if second == [] {
      assert first + second == first;
    } else {
      var n := |second| - 1;
      assert (first + second)[..|first| + n] == first + second[..n];
      FoldAppend(step, s, first, second[..n]);
    }
  }

  lemma FoldCons<S, A>(step: (S, A) -> Option<S>, s: S, a: A, rest: seq<A>)
    ensures Fold(step, s, [a] + rest) == if step(s, a).Some? then Fold(step, step(s, a).value, rest) else None
  {
    assert [a][..0] == [];
    assert Fold(step, s, []) == Some(s);
    FoldAppend(step, s, [a], rest);
  }
}
