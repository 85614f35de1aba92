/** The optional value used wherever the Java code holds a nullable reference. */
module Wrappers {
  datatype Option<+T> = None | Some(value: T)

  /** The number of occupied cells in `s`. */
  function CountSome<T>(s: seq<Option<T>>): nat
  {
    if s == [] then 0 else (if s[0].Some? then 1 else 0) + CountSome(s[1..])
  }

  lemma {:induction false} CountSomeAppend<T>(a: seq<Option<T>>, b: seq<Option<T>>)
    ensures CountSome(a + b) == CountSome(a) + CountSome(b)
  {
    if a == [] {
      assert a + b == b;
    } else {
      assert (a + b)[1..] == a[1..] + b;
      CountSomeAppend(a[1..], b);
    }
  }

  /** Overwriting one cell changes the count by what left and what arrived. */
  lemma CountSomeUpdate<T>(s: seq<Option<T>>, i: nat, v: Option<T>)
    requires i < |s|
    ensures CountSome(s[i := v]) + (if s[i].Some? then 1 else 0)
         == CountSome(s) + (if v.Some? then 1 else 0)
  {
    assert s == s[..i] + [s[i]] + s[i + 1..];
    assert s[i := v] == s[..i] + [v] + s[i + 1..];
    CountSomeAppend(s[..i] + [s[i]], s[i + 1..]);
    CountSomeAppend(s[..i], [s[i]]);
    CountSomeAppend(s[..i] + [v], s[i + 1..]);
    CountSomeAppend(s[..i], [v]);
  }

  lemma {:induction false} CountSomeFull<T>(s: seq<Option<T>>)
    requires forall i :: 0 <= i < |s| ==> s[i].Some?
    ensures CountSome(s) == |s|
  {
    if s != [] {
      CountSomeFull(s[1..]);
    }
  }

  lemma {:induction false} CountSomeEmpty<T>(s: seq<Option<T>>)
    requires forall i :: 0 <= i < |s| ==> s[i].None?
    ensures CountSome(s) == 0
  {
    if s != [] {
      CountSomeEmpty(s[1..]);
    }
  }

  /** Appending to a list built as `a + b` is appending to `b`. */
  lemma AppendAssoc<T>(a: seq<T>, b: seq<T>, c: seq<T>)
    ensures a + b + c == a + (b + c)
  {
  }
}
