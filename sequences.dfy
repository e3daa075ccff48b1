/** Facts about sequences shared by the modules that reason about row order. */
module Sequences {

  /** Removing the row at `j` removes one copy of it from the multiset. */
  lemma MultisetRemove<T>(s: seq<T>, j: nat)
    requires j < |s|
    ensures multiset(s[..j] + s[j + 1..]) == multiset(s) - multiset{s[j]}
  {
    assert s == s[..j] + [s[j]] + s[j + 1..];
  }

  /**
   Taking the first element off `a`, and one occurrence of it off its
   permutation `b`, leaves two permutations of each other.
   */
  lemma PermutationRest<T>(a: seq<T>, b: seq<T>) returns (j: nat)
    requires |a| > 0 && multiset(a) == multiset(b)
    ensures j < |b| && b[j] == a[0]
    ensures multiset(a[1..]) == multiset(b[..j] + b[j + 1..])
  {
    assert a[0] in multiset(b);
    j :| 0 <= j < |b| && b[j] == a[0];
    calc {
      multiset(b[..j] + b[j + 1..]);
    == { MultisetRemove(b, j); }
      multiset(b) - multiset{a[0]};
    == { assert a == [a[0]] + a[1..]; }
      multiset(a[1..]);
    }
  }
}
