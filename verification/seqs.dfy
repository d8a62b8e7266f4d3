/** Stable filtering of sequences: the functional meaning of the game's
    "splice the element out, then step the index back" removal loops. */
module Seqs {

  /** The elements of `s` satisfying `keep`, in their original order. */
  function Filter<T(==,!new)>(s: seq<T>, keep: T -> bool): (r: seq<T>)
    ensures |r| <= |s|
    ensures forall e :: e in r <==> e in s && keep(e)
  {
    if s == [] then []
    else (if keep(s[0]) then [s[0]] else []) + Filter(s[1..], keep)
  }

  /** The complement of a predicate. */
  function Not<T>(keep: T -> bool): T -> bool
  {
    e => !keep(e)
  }

  /** Filtering distributes over concatenation: survivors keep their
      relative order and nothing from one part moves into the other. */
  lemma {:induction false} FilterAppend<T(!new)>(a: seq<T>, b: seq<T>, keep: T -> bool)
    ensures Filter(a + b, keep) == Filter(a, keep) + Filter(b, keep)
  {
    if a == [] {
      assert a + b == b;
    } else {
      assert (a + b)[0] == a[0];
      assert (a + b)[1..] == a[1..] + b;
      FilterAppend(a[1..], b, keep);
    }
  }

  /** A sequence whose every element passes is returned unchanged. */
  lemma {:induction false} FilterAllKept<T(!new)>(s: seq<T>, keep: T -> bool)
    requires forall i :: 0 <= i < |s| ==> keep(s[i])
    ensures Filter(s, keep) == s
  {
    if s != [] {
      FilterAllKept(s[1..], keep);
    }
  }

  /** Every element goes to exactly one side of a predicate: the kept
      elements and the dropped elements together are the input, with
      multiplicities. */
  lemma {:induction false} FilterPartition<T(!new)>(s: seq<T>, keep: T -> bool)
    ensures multiset(Filter(s, keep)) + multiset(Filter(s, Not(keep))) == multiset(s)
    ensures |Filter(s, keep)| + |Filter(s, Not(keep))| == |s|
  {
    if s != [] {
      FilterPartition(s[1..], keep);
      assert s == [s[0]] + s[1..];
    }
  }

  /** Filtering one more element of a prefix appends it exactly when it
      passes. */
  lemma FilterSnoc<T(!new)>(s: seq<T>, k: nat, keep: T -> bool)
    requires k < |s|
    ensures keep(s[k]) ==> Filter(s[..k + 1], keep) == Filter(s[..k], keep) + [s[k]]
    ensures !keep(s[k]) ==> Filter(s[..k + 1], keep) == Filter(s[..k], keep)
  {
    assert s[..k + 1] == s[..k] + [s[k]];
    FilterAppend(s[..k], [s[k]], keep);
    assert Filter([s[k]], keep) == (if keep(s[k]) then [s[k]] else []) + Filter([], keep);
  }

  /** One iteration of a splice-and-step-back removal loop over a sequence
      whose first `k` elements have been processed: the element at the
      boundary is `s[k]`, and splicing it out when it fails `keep` (or
      stepping past it when it passes) processes `k + 1`. */
  lemma SpliceStep<T(!new)>(s: seq<T>, k: nat, keep: T -> bool, a: seq<T>)
    requires k < |s|
    requires a == Filter(s[..k], keep) + s[k..]
    ensures var i := |Filter(s[..k], keep)|;
      && i < |a| && a[i] == s[k]
      && (!keep(s[k]) ==>
            a[..i] + a[i + 1..] == Filter(s[..k + 1], keep) + s[k + 1..]
            && i == |Filter(s[..k + 1], keep)|)
      && (keep(s[k]) ==>
            a == Filter(s[..k + 1], keep) + s[k + 1..]
            && i + 1 == |Filter(s[..k + 1], keep)|)
  {
    var done := Filter(s[..k], keep);
    var i := |done|;
    var rest := s[k + 1..];
    assert s[k..] == [s[k]] + rest;
    assert a == done + [s[k]] + rest;
    FilterSnoc(s, k, keep);
    if !keep(s[k]) {
      assert a[..i] + a[i + 1..] == done + rest;
    }
  }

  /** A splice loop stops exactly when the whole sequence is processed. */
  lemma SpliceExit<T(!new)>(s: seq<T>, k: nat, keep: T -> bool, a: seq<T>)
    requires k <= |s|
    requires a == Filter(s[..k], keep) + s[k..]
    requires |a| <= |Filter(s[..k], keep)|
    ensures a == Filter(s, keep)
  {
    assert s[..k] == s;
  }
}
