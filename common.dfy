/** Small value types and sequence helpers shared by the modules of this project. */
module Common {

  /** An optional value: JavaScript's `null`/`undefined` versus a present value. */
  datatype Option<+T> = None | Some(value: T) {
    function GetOr(default: T): T {
      match this
      case Some(v) => v
      case None => default
    }
  }

  /** A value or an error message: a JavaScript function that either returns or throws. */
  datatype Result<+T> = Ok(value: T) | Err(message: string)

  function Min(a: int, b: int): int { if a <= b then a else b }
  function Max(a: int, b: int): int { if a <= b then b else a }

  /** The number of occurrences of `x` in `s`. */
  function Count<T(==)>(s: seq<T>, x: T): (n: nat)
    ensures n <= |s|
    ensures n == 0 <==> x !in s
  {
    if s == [] then 0 else (if s[0] == x then 1 else 0) + Count(s[1..], x)
  }

  lemma {:induction false} CountAppend<T>(a: seq<T>, b: seq<T>, x: T)
    ensures Count(a + b, x) == Count(a, x) + Count(b, x)
  {
    if a == [] {
      assert a + b == b;
    } else {
      assert (a + b)[1..] == a[1..] + b;
      CountAppend(a[1..], b, x);
    }
  }

  /** `a` is a subsequence of `b`: `a` can be obtained from `b` by deleting elements. */
  ghost predicate IsSubsequence<T>(a: seq<T>, b: seq<T>)
    decreases |b|
  {
    if a == [] then true
    else if b == [] then false
    else if a[|a| - 1] == b[|b| - 1] then IsSubsequence(a[..|a| - 1], b[..|b| - 1])
    else IsSubsequence(a, b[..|b| - 1])
  }

  lemma {:induction false} SubsequenceOfPrefix<T>(a: seq<T>, b: seq<T>, x: T)
    requires IsSubsequence(a, b)
    ensures IsSubsequence(a, b + [x])
    decreases |b|, 1
  {
    var b' := b + [x];
    assert b'[..|b'| - 1] == b;
    if a != [] && a[|a| - 1] == x {
      // the last element of `a` is matched against `x`; the rest of `a` must then lie in `b`
      SubsequenceDropLast(a, b);
    }
  }

  lemma {:induction false} SubsequenceDropLast<T>(a: seq<T>, b: seq<T>)
    requires a != [] && IsSubsequence(a, b)
    ensures IsSubsequence(a[..|a| - 1], b)
    decreases |b|, 0
  {
    var a' := a[..|a| - 1];
    if a' != [] && b != [] {
      if a[|a| - 1] == b[|b| - 1] {
        SubsequenceOfPrefix(a', b[..|b| - 1], b[|b| - 1]);
        assert b[..|b| - 1] + [b[|b| - 1]] == b;
      } else {
        SubsequenceDropLast(a, b[..|b| - 1]);
        SubsequenceOfPrefix(a', b[..|b| - 1], b[|b| - 1]);
        assert b[..|b| - 1] + [b[|b| - 1]] == b;
      }
    }
  }

  lemma {:induction false} SubsequenceExtend<T>(a: seq<T>, b: seq<T>, x: T)
    requires IsSubsequence(a, b)
    ensures IsSubsequence(a + [x], b + [x])
  {
    var a', b' := a + [x], b + [x];
    assert a'[..|a'| - 1] == a && b'[..|b'| - 1] == b;
  }
}
