/** Facts about sequences and prefixes that several proofs step through. */
module Sequences {
  import opened Wrappers

  lemma Associative<T>(x: seq<T>, y: seq<T>, z: seq<T>)
    ensures (x + y) + z == x + (y + z)
  {
  }

  /** What becomes true at one position and stays true is true in the end exactly if some position made it true. */
  lemma {:induction false} Accumulates(reached: nat -> bool, cause: nat -> bool, n: nat)
    requires !reached(0)
    requires forall m: nat :: m < n ==> (reached(m + 1) <==> reached(m) || cause(m))
    ensures reached(n) <==> exists j: nat :: j < n && cause(j)
  {
    if n > 0 {
      Accumulates(reached, cause, n - 1);
      assert reached(n - 1 + 1) <==> reached(n - 1) || cause(n - 1);
    }
  }

  lemma TakeSnoc<T>(s: seq<T>, n: nat)
    requires n < |s|
    ensures s[..n + 1] == s[..n] + [s[n]]
  {
  }

  /** The first answer among f(0), ..., f(n-1). */
  function First<E>(f: nat -> Option<E>, n: nat): Option<E> {
    if n == 0 then None else if First(f, n - 1).Some? then First(f, n - 1) else f(n - 1)
  }

  lemma {:induction false} FirstStays<E>(f: nat -> Option<E>, i: nat, n: nat)
    requires i <= n && First(f, i).Some?
    ensures First(f, n) == First(f, i)
  {
    if i < n {
      FirstStays(f, i, n - 1);
    }
  }

  lemma {:induction false} FirstIsNone<E>(f: nat -> Option<E>, n: nat)
    ensures First(f, n).None? <==> forall i: nat :: i < n ==> f(i).None?
  {
    if n > 0 {
      FirstIsNone(f, n - 1);
    }
  }

  /** The first answer is that of some position before which there is none. */
  lemma {:induction false} FirstIs<E>(f: nat -> Option<E>, n: nat, e: E)
    ensures First(f, n) == Some(e) <==> exists i: nat :: i < n && f(i) == Some(e) && forall j: nat :: j < i ==> f(j).None?
  {
    if n > 0 {
      FirstIs(f, n - 1, e);
      FirstIsNone(f, n - 1);
    }
  }
}
