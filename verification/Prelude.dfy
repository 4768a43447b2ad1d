// Result and Option stand in for the source's exceptions, error returns and nulls.
module Prelude {
  datatype Option<+T> = None | Some(value: T)

  datatype Result<+T, +E> = Ok(value: T) | Err(error: E)

  function Abs(x: int): nat {
    if x < 0 then -x else x
  }

  function Min(x: int, y: int): int {
    if x <= y then x else y
  }

  function Max(x: int, y: int): int {
    if x <= y then y else x
  }

  function Sum(s: seq<int>): int {
    if s == [] then 0 else s[0] + Sum(s[1..])
  }

  lemma {:induction false} SumAppend(a: seq<int>, b: seq<int>)
    ensures Sum(a + b) == Sum(a) + Sum(b)
  {
    if a == [] {
      assert a + b == b;
    } else {
      assert (a + b)[1..] == a[1..] + b;
      SumAppend(a[1..], b);
    }
  }

  lemma SumUpdate(s: seq<int>, i: nat, v: int)
    requires i < |s|
    ensures Sum(s[i := v]) == Sum(s) - s[i] + v
  {
    assert s == s[..i] + ([s[i]] + s[i + 1..]);
    assert s[i := v] == s[..i] + ([v] + s[i + 1..]);
    SumAppend(s[..i], [s[i]] + s[i + 1..]);
    SumAppend(s[..i], [v] + s[i + 1..]);
  }

  lemma {:induction false} SumMonotone(a: seq<int>, b: seq<int>)
    requires |a| == |b|
    requires forall i :: 0 <= i < |a| ==> a[i] <= b[i]
    ensures Sum(a) <= Sum(b)
    ensures Sum(a) == Sum(b) ==> a == b
  {
    if a != [] {
      SumMonotone(a[1..], b[1..]);
      if Sum(a) == Sum(b) {
        assert a[1..] == b[1..];
        assert a == [a[0]] + a[1..];
      }
    }
  }
}
