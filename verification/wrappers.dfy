/** The optional value used wherever the source reads a key that may be absent (`dict.get`). */
module Wrappers {

  datatype Option<+T> = None | Some(value: T) {

    /** The value, or `default` when absent (Python's `d.get(k, default)`). */
    function GetOr(default: T): T {
      match this
      case Some(v) => v
      case None => default
    }
  }
}

/** Order-preserving selection from a sequence (a Python list comprehension with an `if`). */
module Seqs {
  import opened Wrappers

  /** `s.index(x)`: the first position of `x`, or nothing where Python raises `ValueError`. */
  function IndexIn<T(==)>(s: seq<T>, x: T): (r: Option<nat>)
    ensures r.Some? ==> r.value < |s| && s[r.value] == x && x !in s[..r.value]
    ensures r.None? <==> x !in s
    decreases |s|
  {
    if s == [] then None
    else if s[0] == x then Some(0)
    else match IndexIn(s[1..], x)
      case None => None
      case Some(k) =>
        assert s[..k + 1] == [s[0]] + s[1..][..k];
        Some(k + 1)
  }


  function Filter<T(!new)>(s: seq<T>, keep: T -> bool): (r: seq<T>)
    ensures |r| <= |s|
    ensures forall x :: x in r <==> x in s && keep(x)
    decreases |s|
  {
    if s == [] then []
    else Filter(s[..|s| - 1], keep) + (if keep(s[|s| - 1]) then [s[|s| - 1]] else [])
  }

  /** A position holding `x` with no earlier `x` is the one `IndexIn` finds. */
  lemma IndexInFirst<T>(s: seq<T>, x: T)
    ensures forall i :: 0 <= i < |s| && s[i] == x && x !in s[..i] ==> IndexIn(s, x) == Some(i)
  {
    forall i | 0 <= i < |s| && s[i] == x && x !in s[..i]
      ensures IndexIn(s, x) == Some(i)
    {
      assert x in s;
    }
  }

  /** An element of a non-empty sequence is its last one or lies before it. */
  lemma LastMembership<T>(s: seq<T>, x: T)
    requires |s| > 0
    ensures x in s <==> x in s[..|s| - 1] || x == s[|s| - 1]
  {
    assert s == s[..|s| - 1] + [s[|s| - 1]];
  }

  /** Filtering distributes over concatenation, so storage order is kept. */
  lemma {:induction false} FilterAppend<T(!new)>(a: seq<T>, b: seq<T>, keep: T -> bool)
    ensures Filter(a + b, keep) == Filter(a, keep) + Filter(b, keep)
    decreases |b|
  {
    if b != [] {
      assert (a + b)[..|a + b| - 1] == a + b[..|b| - 1];
      FilterAppend(a, b[..|b| - 1], keep);
    } else {
      assert a + b == a;
    }
  }
}
