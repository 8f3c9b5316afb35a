/** Small sequence vocabulary shared by the other modules. */
module Common {

  datatype Option<T> = None | Some(value: T)

  /** No element occurs twice. */
  predicate NoDup<T(==)>(s: seq<T>)
  {
    forall i, j :: 0 <= i < j < |s| ==> s[i] != s[j]
  }

  /** `a` is `b` with some elements dropped, the rest kept in their order. */
  predicate Subseq<T(==)>(a: seq<T>, b: seq<T>)
    decreases |b|
  {
    if a == [] then true
    else if b == [] then false
    else if a[0] == b[0] then Subseq(a[1..], b[1..])
    else Subseq(a, b[1..])
  }

  /** A subsequence only holds elements of the whole and is no longer. */
  lemma {:induction false} SubseqElements<T>(a: seq<T>, b: seq<T>)
    requires Subseq(a, b)
    ensures |a| <= |b|
    ensures forall x :: x in a ==> x in b
    decreases |b|
  {
    if a != [] && b != [] {
      if a[0] == b[0] {
        SubseqElements(a[1..], b[1..]);
        forall x | x in a ensures x in b {
          if x != a[0] {
            assert x in a[1..];
          }
        }
      } else {
        SubseqElements(a, b[1..]);
      }
    }
  }

  /** Dropping elements cannot create a duplicate. */
  lemma {:induction false} SubseqNoDup<T>(a: seq<T>, b: seq<T>)
    requires Subseq(a, b) && NoDup(b)
    ensures NoDup(a)
    decreases |b|
  {
    if a != [] && b != [] {
      assert NoDup(b[1..]);
      if a[0] == b[0] {
        SubseqNoDup(a[1..], b[1..]);
        SubseqElements(a[1..], b[1..]);
        assert a[0] !in b[1..];
        forall i, j | 0 <= i < j < |a| ensures a[i] != a[j] {
          if i == 0 {
            assert a[j] == a[1..][j - 1];
          } else {
            assert a[i] == a[1..][i - 1] && a[j] == a[1..][j - 1];
          }
        }
      } else {
        SubseqNoDup(a, b[1..]);
      }
    }
  }
}
