/** Sequence operations the scene code relies on: reversal, first-occurrence
 *  deduplication and permutation. */
module Seqs {

  /** `s` read back to front. */
  function Reverse<T>(s: seq<T>): (r: seq<T>)
    ensures |r| == |s|
    ensures forall i :: 0 <= i < |s| ==> r[i] == s[|s| - 1 - i]
  {
    if |s| == 0 then [] else Reverse(s[1..]) + [s[0]]
  }

  /** Reversing twice gives the sequence back. */
  lemma ReverseInvolution<T>(s: seq<T>)
    ensures Reverse(Reverse(s)) == s
  {
    var r := Reverse(Reverse(s));
    assert forall i :: 0 <= i < |s| ==> r[i] == s[i];
  }

  /** Reversal turns a concatenation around. */
  lemma ReverseAppend<T>(a: seq<T>, b: seq<T>)
    ensures Reverse(a + b) == Reverse(b) + Reverse(a)
  {
    var l, r := Reverse(a + b), Reverse(b) + Reverse(a);
    assert forall i :: 0 <= i < |l| ==> l[i] == r[i] by {
      forall i | 0 <= i < |l|
        ensures l[i] == r[i]
      {
        if i < |b| {
          assert l[i] == (a + b)[|a| + |b| - 1 - i];
        } else {
          assert l[i] == (a + b)[|a| + |b| - 1 - i];
        }
      }
    }
  }

  /** Reversal turns a concatenation of three around. */
  lemma ReverseAppendThree<T>(a: seq<T>, b: seq<T>, c: seq<T>)
    ensures Reverse(a + b + c) == Reverse(c) + Reverse(b) + Reverse(a)
  {
    ReverseAppend(a + b, c);
    ReverseAppend(a, b);
  }

  /**
   * The filling loop the scene code uses to reverse a slice: the element
   * at position i is stored at position len-1-i of a fresh slice.
   */
  method ReverseByIndex<T>(s: seq<T>) returns (r: seq<T>)
    ensures r == Reverse(s)
  {
    var a := new T[|s|](i requires 0 <= i < |s| reads {} => s[i]);
    var i := 0;
    while i < |s|
      invariant 0 <= i <= |s|
      invariant forall k :: 0 <= k < i ==> a[|s| - 1 - k] == s[k]
    {
      a[|s| - 1 - i] := s[i];
      i := i + 1;
    }
    r := a[..];
  }

  /**
   * The loop that walks `ip` from its last element down to its first and
   * appends each element to `op`.
   */
  method AppendReversed<T>(op: seq<T>, ip: seq<T>) returns (r: seq<T>)
    ensures r == op + Reverse(ip)
    ensures |r| == |op| + |ip|
  {
    r := op;
    var i := |ip| - 1;
    while i >= 0
      invariant -1 <= i < |ip|
      invariant |r| == |op| + |ip| - 1 - i
      invariant r[..|op|] == op
      invariant forall k :: |op| <= k < |r| ==> r[k] == ip[|ip| - 1 - (k - |op|)]
    {
      r := r + [ip[i]];
      i := i - 1;
    }
    assert r == op + Reverse(ip);
  }

  /** No element occurs twice. */
  predicate Distinct<T(==)>(s: seq<T>) {
    forall i, j :: 0 <= i < j < |s| ==> s[i] != s[j]
  }

  /** The position of the first occurrence of `x` in `s`. */
  function Position<T(==)>(s: seq<T>, x: T): (k: nat)
    requires x in s
    ensures k < |s| && s[k] == x
    ensures forall j :: 0 <= j < k ==> s[j] != x
  {
    if s[0] == x then 0 else 1 + Position(s[1..], x)
  }

  /** A position holding `x` with no earlier `x` is the first occurrence. */
  lemma PositionUnique<T>(s: seq<T>, x: T, k: nat)
    requires k < |s| && s[k] == x
    requires forall j :: 0 <= j < k ==> s[j] != x
    ensures Position(s, x) == k
  {
  }

  /** Appending elements does not move the first occurrence of an old one. */
  lemma PositionAppend<T>(s: seq<T>, t: seq<T>, x: T)
    requires x in s
    ensures x in s + t && Position(s + t, x) == Position(s, x)
  {
    PositionUnique(s + t, x, Position(s, x));
  }

  /** `vs` with `x` added at the end unless it is already there. */
  function AddNew<T(==)>(vs: seq<T>, x: T): seq<T> {
    if x in vs then vs else vs + [x]
  }

  /** The distinct elements of `s`, each once, in the order they first occur. */
  function Dedup<T(==,!new)>(s: seq<T>): (d: seq<T>)
    ensures Distinct(d)
    ensures forall x :: x in d <==> x in s
  {
    if |s| == 0 then []
    else
      var prefix := Dedup(s[..|s| - 1]);
      assert forall x :: x in s <==> x in s[..|s| - 1] || x == s[|s| - 1] by {
        assert s == s[..|s| - 1] + [s[|s| - 1]];
      }
      AddNew(prefix, s[|s| - 1])
  }

  /** Deduplicating one more element adds it if it is new. */
  lemma DedupSnoc<T(!new)>(s: seq<T>, x: T)
    ensures Dedup(s + [x]) == AddNew(Dedup(s), x)
  {
    assert (s + [x])[..|s|] == s;
  }

  /**
   * The elements of `Dedup(s)` are ordered by where they first occur in `s`.
   */
  lemma {:induction false} DedupFirstOccurrenceOrder<T(!new)>(s: seq<T>)
    ensures forall i, j :: 0 <= i < j < |Dedup(s)| ==>
      Position(s, Dedup(s)[i]) < Position(s, Dedup(s)[j])
  {
    if |s| > 0 {
      var init, x := s[..|s| - 1], s[|s| - 1];
      assert s == init + [x];
      DedupFirstOccurrenceOrder(init);
      var d', d := Dedup(init), Dedup(s);
      assert d == AddNew(d', x);
      forall i, j | 0 <= i < j < |d|
        ensures Position(s, d[i]) < Position(s, d[j])
      {
        assert d[i] in init by { assert d[i] == d'[i]; }
        PositionAppend(init, [x], d[i]);
        if j < |d'| {
          assert d[j] == d'[j];
          PositionAppend(init, [x], d[j]);
        } else {
          assert d[j] == x && x !in init;
          PositionUnique(s, x, |init|);
        }
      }
    }
  }

  /** `perm` lists each of 0 .. n-1 exactly once. */
  predicate IsPermutation(perm: seq<int>, n: nat) {
    && |perm| == n
    && (forall i :: 0 <= i < n ==> 0 <= perm[i] < n)
    && (forall i, j :: 0 <= i < j < n ==> perm[i] != perm[j])
    && (forall k :: 0 <= k < n ==> k in perm)
  }

  /** The sequence whose element i is `s[perm[i]]`. */
  function Permute<T>(s: seq<T>, perm: seq<int>): (r: seq<T>)
    requires forall i :: 0 <= i < |perm| ==> 0 <= perm[i] < |s|
    ensures |r| == |perm|
  {
    seq(|perm|, i requires 0 <= i < |perm| => s[perm[i]])
  }

  /** Dropping the position that holds the largest index leaves a permutation of the rest. */
  lemma DropLargest(perm: seq<int>, n: nat, j: nat)
    requires IsPermutation(perm, n + 1)
    requires j < |perm| && perm[j] == n
    ensures IsPermutation(perm[..j] + perm[j + 1..], n)
  {
    var perm' := perm[..j] + perm[j + 1..];
    assert forall i :: 0 <= i < n ==> perm'[i] == if i < j then perm[i] else perm[i + 1];
    forall k | 0 <= k < n
      ensures k in perm'
    {
      assert k in perm;
      var i :| 0 <= i < |perm| && perm[i] == k;
      if i < j {
        assert perm'[i] == k;
      } else {
        assert perm'[i - 1] == k;
      }
    }
  }

  /** Rearranging by `perm` equals rearranging the prefix by `perm` without its entry `j`, with the last element put back at `j`. */
  lemma PermuteSplit<T>(s: seq<T>, perm: seq<int>, j: nat)
    requires IsPermutation(perm, |s|) && |s| > 0
    requires j < |perm| && perm[j] == |s| - 1
    requires IsPermutation(perm[..j] + perm[j + 1..], |s| - 1)
    ensures var p' := Permute(s[..|s| - 1], perm[..j] + perm[j + 1..]);
      Permute(s, perm) == p'[..j] + [s[|s| - 1]] + p'[j..]
  {
    var n := |s| - 1;
    var perm' := perm[..j] + perm[j + 1..];
    var p, p' := Permute(s, perm), Permute(s[..n], perm');
    var q := p'[..j] + [s[n]] + p'[j..];
    assert |q| == |p|;
    forall i | 0 <= i < |p|
      ensures p[i] == q[i]
    {
      if i < j {
        assert perm'[i] == perm[i];
      } else if i > j {
        assert perm'[i - 1] == perm[i];
      }
    }
  }

  /** Rearranging by a permutation keeps every element with its multiplicity. */
  lemma {:induction false} PermutePreservesMultiset<T>(s: seq<T>, perm: seq<int>)
    requires IsPermutation(perm, |s|)
    ensures multiset(Permute(s, perm)) == multiset(s)
  {
    if |s| > 0 {
      var n := |s| - 1;
      assert n in perm;
      var j :| 0 <= j < |perm| && perm[j] == n;
      var perm' := perm[..j] + perm[j + 1..];
      DropLargest(perm, n, j);
      PermutePreservesMultiset(s[..n], perm');
      PermuteSplit(s, perm, j);
      var p' := Permute(s[..n], perm');
      MultisetInsert(p', j, s[n]);
      assert s == s[..n] + [s[n]];
    }
  }

  /** Inserting an element anywhere adds it to the multiset. */
  lemma MultisetInsert<T>(p: seq<T>, j: nat, x: T)
    requires j <= |p|
    ensures multiset(p[..j] + [x] + p[j..]) == multiset(p) + multiset{x}
  {
    assert p == p[..j] + p[j..];
  }

  /** Appending two copies of `d` adds two copies to the multiset. */
  lemma MultisetSnocTwo<T>(s: seq<T>, d: T)
    ensures multiset(s + [d, d]) == multiset(s) + multiset{d, d}
  {
  }

  /** Two more copies of `d` add two to the multiset `m` of `s`. */
  lemma MultisetSnocTwoOf<T>(s: seq<T>, d: T, m: multiset<T>)
    requires multiset(s) == m
    ensures multiset(s + [d, d]) == m + multiset{d, d}
  {
    MultisetSnocTwo(s, d);
  }

  /** Appending one element and then a sequence, regrouped. */
  lemma AppendCons<T>(a: seq<T>, x: T, b: seq<T>)
    ensures (a + [x]) + b == a + ([x] + b)
  {
  }

  /** A slice inside the left part of a concatenation. */
  lemma SliceLeft<T>(a: seq<T>, b: seq<T>, lo: nat, hi: nat)
    requires lo <= hi <= |a|
    ensures (a + b)[lo..hi] == a[lo..hi]
  {
  }

  /** The pair at offset 2x of `row` is the pair at offset |above| + 2x of `above + row`. */
  lemma PairAfter<T>(above: seq<T>, row: seq<T>, x: nat, pair: seq<T>)
    requires 2 * x + 2 <= |row| && row[2 * x..2 * x + 2] == pair
    ensures |above| + 2 * x + 2 <= |above + row|
    ensures (above + row)[|above| + 2 * x..|above| + 2 * x + 2] == pair
  {
    var i := |above| + 2 * x;
    assert (above + row)[i] == row[2 * x];
    assert (above + row)[i + 1] == row[2 * x + 1];
  }

  /** A slice inside a prefix of `b` is the same slice of `b`. */
  lemma SliceOfPrefix<T>(a: seq<T>, b: seq<T>, lo: nat, hi: nat)
    requires |a| <= |b| && a == b[..|a|] && lo <= hi <= |a|
    ensures b[lo..hi] == a[lo..hi]
  {
  }
}
