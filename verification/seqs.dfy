/** Sequence helpers: duplicate-freedom, removal of the first occurrence, joining. */
module Seqs {

  predicate NoDuplicates<T(==)>(s: seq<T>) {
    forall i, j | 0 <= i < j < |s| :: s[i] != s[j]
  }

  /** `s` with its first occurrence of `x` removed (unchanged when `x` is absent). */
  function Without<T(==)>(s: seq<T>, x: T): seq<T> {
    if s == [] then []
    else if s[0] == x then s[1..]
    else [s[0]] + Without(s[1..], x)
  }

  /** Every element of `s` that is not `x`, in order. */
  function Filtered<T(==)>(s: seq<T>, x: T): seq<T> {
    if s == [] then []
    else if s[0] == x then Filtered(s[1..], x)
    else [s[0]] + Filtered(s[1..], x)
  }

  /** Removing the first occurrence, found at index `i`, is cutting out `s[i]`. */
  lemma {:induction false} WithoutAt<T>(s: seq<T>, x: T, i: nat)
    requires i < |s| && s[i] == x && x !in s[..i]
    ensures Without(s, x) == s[..i] + s[i + 1..]
  {
    if i > 0 {
      assert s[0] != x by { assert s[0] == s[..i][0]; }
      assert x !in s[1..][..i - 1] by { assert s[1..][..i - 1] == s[..i][1..]; }
      WithoutAt(s[1..], x, i - 1);
      assert s[1..][..i - 1] == s[1..i];
      assert s[1..][i - 1 + 1..] == s[i + 1..];
      assert [s[0]] + s[1..i] == s[..i];
    }
  }

  /** Removing an absent element changes nothing. */
  lemma {:induction false} WithoutAbsent<T>(s: seq<T>, x: T)
    requires x !in s
    ensures Without(s, x) == s
  {
    if s != [] {
      WithoutAbsent(s[1..], x);
    }
  }

  /**
   * Without duplicates, removing the first occurrence removes every occurrence,
   * keeps the relative order of the others, and keeps the sequence duplicate-free.
   */
  lemma {:induction false} WithoutNoDuplicates<T>(s: seq<T>, x: T)
    requires NoDuplicates(s)
    ensures Without(s, x) == Filtered(s, x)
    ensures x !in Without(s, x)
    ensures NoDuplicates(Without(s, x))
    ensures forall y | y != x :: y in Without(s, x) <==> y in s
    ensures |Without(s, x)| == if x in s then |s| - 1 else |s|
  {
    if s != [] {
      assert NoDuplicates(s[1..]) by {
        forall i, j | 0 <= i < j < |s[1..]| ensures s[1..][i] != s[1..][j] {
          assert s[1..][i] == s[i + 1] && s[1..][j] == s[j + 1];
        }
      }
      WithoutNoDuplicates(s[1..], x);
      if s[0] == x {
        assert x !in s[1..] by {
          forall k | 0 <= k < |s[1..]| ensures s[1..][k] != x { assert s[1..][k] == s[k + 1]; }
        }
        WithoutAbsent(s[1..], x);
        FilteredAbsent(s[1..], x);
      } else {
        var r := Without(s, x);
        assert r == [s[0]] + Without(s[1..], x);
        assert s[0] !in Without(s[1..], x) by {
          forall k | 0 <= k < |s[1..]| ensures s[1..][k] != s[0] { assert s[1..][k] == s[k + 1]; }
        }
        assert x in s <==> x in s[1..] by { assert s == [s[0]] + s[1..]; }
        forall y | y != x ensures y in r <==> y in s {
          assert s == [s[0]] + s[1..];
        }
      }
    }
  }

  lemma {:induction false} FilteredAbsent<T>(s: seq<T>, x: T)
    requires x !in s
    ensures Filtered(s, x) == s
  {
    if s != [] {
      FilteredAbsent(s[1..], x);
    }
  }

  /** Appending an element and removing it again gives the original back. */
  lemma {:induction false} WithoutAppended<T>(s: seq<T>, x: T)
    requires x !in s
    ensures Without(s + [x], x) == s
  {
    if s == [] {
      assert [] + [x] == [x];
    } else {
      assert (s + [x])[1..] == s[1..] + [x];
      WithoutAppended(s[1..], x);
      assert [s[0]] + s[1..] == s;
    }
  }

  /** Appending an absent element keeps a sequence duplicate-free. */
  lemma AppendNoDuplicates<T>(s: seq<T>, x: T)
    requires NoDuplicates(s) && x !in s
    ensures NoDuplicates(s + [x])
  {
  }

  /** The elements of a sequence, as a set. */
  function Elements<T>(s: seq<T>): set<T> {
    set x | x in s
  }

  /** The elements of a non-empty sequence are those of its front and its last element. */
  lemma ElementsSnoc<T>(s: seq<T>)
    requires s != []
    ensures Elements(s) == Elements(s[..|s| - 1]) + {s[|s| - 1]}
  {
    assert s == s[..|s| - 1] + [s[|s| - 1]];
  }

  /** The pieces joined into one string, with `sep` between neighbours. */
  function JoinWith(pieces: seq<string>, sep: string): string {
    if pieces == [] then ""
    else if |pieces| == 1 then pieces[0]
    else pieces[0] + sep + JoinWith(pieces[1..], sep)
  }

  /**
   * Lists the elements of a finite set, each exactly once, in an order the
   * caller cannot rely on (as Swift's `Array(set)` and `Array(dict.keys)`).
   */
  method SetToSeq<T>(s: set<T>) returns (xs: seq<T>)
    ensures NoDuplicates(xs)
    ensures forall x :: x in xs <==> x in s
    ensures |xs| == |s|
  {
    xs := [];
    var rest := s;
    while rest != {}
      invariant rest <= s
      invariant NoDuplicates(xs)
      invariant forall x :: x in xs <==> x in s && x !in rest
      invariant |xs| + |rest| == |s|
      decreases |rest|
    {
      var x :| x in rest;
      xs := xs + [x];
      rest := rest - {x};
    }
  }
}
