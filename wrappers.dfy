/** Small building blocks shared by every module of the model: optional
    values, the outcome of an HTTP endpoint, Python truthiness, and the two
    list operations the backend relies on (`list.remove` and comprehension
    filters). */
module Wrappers {

  datatype Option<+T> = None | Some(value: T)

  /** What an endpoint answers: a value, or the `HTTPException` it raises
      (status code and detail text). */
  datatype Outcome<+T> = Ok(value: T) | Fail(status: nat, detail: string)

  /** The detail of the 500 answer to an exception no handler catches. */
  const InternalError := "Internal Server Error"

  /** Python truthiness of an optional string: `None` and `""` are false. */
  predicate Truthy(s: Option<string>) {
    s.Some? && s.value != ""
  }

  /** Python's `a or b` on optional strings: `a` when it is truthy, else `b`. */
  function Or(a: Option<string>, b: Option<string>): Option<string> {
    if Truthy(a) then a else b
  }

  /** Number of occurrences of `x` in `s`. */
  function Count<T(==)>(s: seq<T>, x: T): nat {
    if s == [] then 0 else (if s[0] == x then 1 else 0) + Count(s[1..], x)
  }

  /** Python's `list.index(x)`: the position of the first occurrence. */
  function FirstIndex<T(==)>(s: seq<T>, x: T): (i: nat)
    requires x in s
    ensures i < |s| && s[i] == x && x !in s[..i]
  {
    if s[0] == x then 0
    else
      var j := FirstIndex(s[1..], x);
      assert s[..j + 1] == [s[0]] + s[1..][..j];
      j + 1
  }

  /** Python's `list.remove(x)`: drops the first occurrence of `x`; the
      caller checks `x in s` first, as `list.remove` raises otherwise. */
  function RemoveFirst<T(==,!new)>(s: seq<T>, x: T): (r: seq<T>)
    requires x in s
    ensures r == s[..FirstIndex(s, x)] + s[FirstIndex(s, x) + 1..]
    ensures |r| == |s| - 1
    ensures Count(r, x) == Count(s, x) - 1
    ensures forall y :: y != x ==> Count(r, y) == Count(s, y)
  {
    if s[0] == x then s[1..]
    else
      var i := FirstIndex(s[1..], x);
      assert s[..i + 1] == [s[0]] + s[1..][..i];
      assert s[i + 2..] == s[1..][i + 1..];
      [s[0]] + RemoveFirst(s[1..], x)
  }

  lemma {:induction false} CountPositive<T>(s: seq<T>, x: T)
    ensures x in s <==> Count(s, x) > 0
  {
    if s != [] {
      CountPositive(s[1..], x);
      assert x in s <==> s[0] == x || x in s[1..];
    }
  }

  /** A list comprehension `[x for x in s if p(x)]`. */
  function Filter<T(!new)>(s: seq<T>, p: T -> bool): (r: seq<T>)
    ensures |r| <= |s|
    ensures forall x :: x in r <==> x in s && p(x)
  {
    if s == [] then []
    else if p(s[0]) then [s[0]] + Filter(s[1..], p)
    else Filter(s[1..], p)
  }

  lemma {:induction false} FilterAppend<T(!new)>(a: seq<T>, b: seq<T>, p: T -> bool)
    ensures Filter(a + b, p) == Filter(a, p) + Filter(b, p)
  {
    if a != [] {
      assert (a + b)[1..] == a[1..] + b;
      FilterAppend(a[1..], b, p);
    } else {
      assert a + b == b;
    }
  }

  /** Removing an element just appended, that did not occur before, gives
      back the original list. */
  lemma {:induction false} RemoveAppended<T(!new)>(s: seq<T>, x: T)
    requires x !in s
    ensures RemoveFirst(s + [x], x) == s
  {
    if s != [] {
      assert (s + [x])[1..] == s[1..] + [x];
      RemoveAppended(s[1..], x);
    }
  }
}
