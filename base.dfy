/**
 * Small shared vocabulary: an optional value, a success-or-fault result,
 * and pairwise distinctness of a sequence.
 */
module Base {

  datatype Option<+T> = None | Some(value: T)

  datatype Result<+T, +E> = Success(value: T) | Failure(error: E)

  /** No element occurs twice in `s`. */
  predicate Distinct<T(==)>(s: seq<T>) {
    forall i, j :: 0 <= i < j < |s| ==> s[i] != s[j]
  }

  /** The elements of `s`, first occurrence kept, later repetitions dropped. */
  function Dedup<T(==,!new)>(s: seq<T>): (r: seq<T>)
    ensures Distinct(r)
    ensures forall x :: x in r <==> x in s
    ensures |r| <= |s|
    decreases |s|
  {
    if s == [] then []
    else
      var before := Dedup(s[..|s| - 1]);
      var x := s[|s| - 1];
      assert forall y :: y in s <==> y in s[..|s| - 1] || y == x;
      if x in before then before else before + [x]
  }

  lemma PrefixMembers<T>(p: seq<T>, s: seq<T>)
    requires |p| <= |s| && s[..|p|] == p
    ensures forall x :: x in p ==> x in s
  {
    forall x | x in p ensures x in s {
      var i :| 0 <= i < |p| && p[i] == x;
      assert s[i] == x;
    }
  }

  /** Concatenation is associative; stated once so that callers need not re-derive it element by element. */
  lemma AppendAssoc<T>(x: seq<T>, y: seq<T>, z: seq<T>)
    ensures x + (y + z) == (x + y) + z
  {
  }
}
