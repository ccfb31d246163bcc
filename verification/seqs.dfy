/** Generic facts about sequences: counting occurrences, repetition and duplicates. */
module Seqs {

  /** The number of positions of `s` that hold `x`. */
  function Occurrences<T(==)>(s: seq<T>, x: T): (n: nat)
    ensures n <= |s|
    ensures n > 0 <==> x in s
  {
    if |s| == 0 then 0
    else
      assert s == s[..|s| - 1] + [s[|s| - 1]];
      Occurrences(s[..|s| - 1], x) + (if s[|s| - 1] == x then 1 else 0)
  }

  /** `n` copies of `x`, built one append at a time. */
  function Repeat<T>(x: T, n: nat): (r: seq<T>)
    ensures |r| == n
  {
    if n == 0 then [] else Repeat(x, n - 1) + [x]
  }

  /** No value appears at two different positions of `s`. */
  predicate NoDuplicates<T(==)>(s: seq<T>) {
    forall i, j :: 0 <= i < j < |s| ==> s[i] != s[j]
  }

  lemma {:induction false} OccurrencesAppend<T>(a: seq<T>, b: seq<T>, x: T)
    ensures Occurrences(a + b, x) == Occurrences(a, x) + Occurrences(b, x)
    decreases |b|
  {
    if |b| == 0 {
      assert a + b == a;
    } else {
      var b' := b[..|b| - 1];
      assert (a + b)[..|a + b| - 1] == a + b';
      OccurrencesAppend(a, b', x);
    }
  }

  lemma {:induction false} OccurrencesRepeat<T>(y: T, n: nat, x: T)
    ensures Occurrences(Repeat(y, n), x) == if x == y then n else 0
  {
    if n > 0 {
      OccurrencesRepeat(y, n - 1, x);
      OccurrencesAppend(Repeat(y, n - 1), [y], x);
      assert [y][..0] == [];
    }
  }

  /** A sequence is duplicate-free exactly when every value occurs at most once. */
  lemma {:induction false} NoDuplicatesOccurrences<T>(s: seq<T>)
    ensures NoDuplicates(s) <==> forall x :: Occurrences(s, x) <= 1
    decreases |s|
  {
    if NoDuplicates(s) {
      if |s| > 0 {
        var s' := s[..|s| - 1];
        assert NoDuplicates(s');
        NoDuplicatesOccurrences(s');
        assert s[|s| - 1] !in s';
        forall x
          ensures Occurrences(s, x) <= 1
        {
          assert Occurrences(s, x) == Occurrences(s', x) + (if s[|s| - 1] == x then 1 else 0);
          assert Occurrences(s', x) <= 1;
          if s[|s| - 1] == x {
            assert x !in s';
          }
        }
      }
    } else {
      var i, j :| 0 <= i < j < |s| && s[i] == s[j];
      assert s == s[..j] + s[j..];
      OccurrencesAppend(s[..j], s[j..], s[i]);
      assert s[i] in s[..j];
      assert s[j] in s[j..];
    }
  }
}
