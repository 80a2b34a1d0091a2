/** Bounded suffixes, occurrence counts and sums that the rest of the model shares. */
module Sequences {

  datatype Option<+T> = None | Some(value: T)

  /** The last `n` elements of `s`, or all of `s` when it is shorter. */
  function LastN<T>(s: seq<T>, n: nat): (r: seq<T>)
    ensures |r| == if |s| <= n then |s| else n
  {
    if |s| <= n then s else s[|s| - n..]
  }

  /** The first `n` elements of `s`, or all of `s` when it is shorter. */
  function FirstN<T>(s: seq<T>, n: nat): seq<T> {
    if |s| <= n then s else s[..n]
  }

  /** Appending to a window and truncating it gives the window of the longer log. */
  lemma LastNPush<T>(s: seq<T>, x: T, n: nat)
    ensures LastN(LastN(s, n) + [x], n) == LastN(s + [x], n)
  {
  }

  lemma ConcatAssociates<T>(a: seq<T>, b: seq<T>, c: seq<T>)
    ensures a + b + c == a + (b + c)
  {
  }

  /** The last element of a concatenation, and what is before it. */
  lemma DropLastOfConcat<T>(a: seq<T>, b: seq<T>)
    requires b != []
    ensures var all := a + b; all[..|all| - 1] == a + b[..|b| - 1] && all[|all| - 1] == b[|b| - 1]
  {
  }

  ghost predicate Distinct<T>(s: seq<T>) {
    forall i, j :: 0 <= i < j < |s| ==> s[i] != s[j]
  }

  function Count<T(==)>(s: seq<T>, x: T): (n: nat)
    ensures n <= |s|
    ensures n > 0 <==> x in s
  {
    if s == [] then 0 else Count(s[..|s| - 1], x) + if s[|s| - 1] == x then 1 else 0
  }

  lemma {:induction false} CountConcat<T>(s: seq<T>, t: seq<T>, x: T)
    ensures Count(s + t, x) == Count(s, x) + Count(t, x)
  {
    if t == [] {
      assert s + t == s;
    } else {
      CountConcat(s, t[..|t| - 1], x);
      DropLastOfConcat(s, t);
    }
  }

  lemma CountPush<T>(s: seq<T>, y: T, x: T)
    ensures Count(s + [y], x) == Count(s, x) + if y == x then 1 else 0
  {
    assert (s + [y])[..|s|] == s;
  }

  /** Two different values cannot fill more than the whole sequence between them. */
  lemma {:induction false} CountPair<T>(s: seq<T>, x: T, y: T)
    requires x != y
    ensures Count(s, x) + Count(s, y) <= |s|
  {
    if s != [] {
      CountPair(s[..|s| - 1], x, y);
    }
  }

  /** `n` copies of `x`. */
  function Repeat<T>(x: T, n: nat): (r: seq<T>)
    ensures |r| == n
    ensures forall i :: 0 <= i < n ==> r[i] == x
  {
    seq(n, _ => x)
  }

  lemma {:induction false} CountUniform<T>(s: seq<T>, x: T)
    requires forall i :: 0 <= i < |s| ==> s[i] == x
    ensures Count(s, x) == |s|
  {
    if s != [] {
      CountUniform(s[..|s| - 1], x);
    }
  }

  lemma RepeatConcat<T>(x: T, m: nat, n: nat)
    ensures Repeat(x, m) + Repeat(x, n) == Repeat(x, m + n)
  {
  }
}
