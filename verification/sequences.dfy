/** Sequences: concatenation of their elements, prefixes, subsequences, elements without repetition. */
module Sequences {
  function Flatten<T>(parts: seq<seq<T>>): seq<T> {
    if parts == [] then [] else Flatten(parts[..|parts| - 1]) + parts[|parts| - 1]
  }

  lemma FlattenSnoc<T>(parts: seq<seq<T>>, p: seq<T>)
    ensures Flatten(parts + [p]) == Flatten(parts) + p
  {
    assert (parts + [p])[..|parts|] == parts;
  }

  lemma {:induction false} FlattenGrows<T>(parts: seq<seq<T>>, n: nat)
    requires n < |parts|
    ensures |Flatten(parts)| >= |Flatten(parts[..n])| + |parts[|parts| - 1]|
  {
    if n < |parts| - 1 {
      FlattenGrows(parts[..|parts| - 1], n);
      assert parts[..|parts| - 1][..n] == parts[..n];
    }
  }

  lemma {:induction false} FlattenConcat<T>(xs: seq<seq<T>>, ys: seq<seq<T>>)
    ensures Flatten(xs + ys) == Flatten(xs) + Flatten(ys)
  {
    if ys == [] {
      assert xs + ys == xs;
    } else {
      FlattenConcat(xs, ys[..|ys| - 1]);
      assert (xs + ys)[..|xs + ys| - 1] == xs + ys[..|ys| - 1];
    }
  }

  /** The first n elements, or all of them. */
  function Prefix<T>(s: seq<T>, n: nat): seq<T> {
    if n <= |s| then s[..n] else s
  }

  /** What Prefix leaves. */
  function Rest<T>(s: seq<T>, n: nat): seq<T> {
    if n <= |s| then s[n..] else []
  }

  lemma PrefixSteps<T>(s: seq<T>, n: nat, m: nat)
    ensures Prefix(s, n) + Prefix(Rest(s, n), m) == Prefix(s, n + m)
    ensures Rest(Rest(s, n), m) == Rest(s, n + m)
  {
    if n + m <= |s| {
      assert s[n..][..m] == s[n..n + m] && s[n..][m..] == s[n + m..];
    }
  }

  // ---------------------------------------------------------------- no element twice

  ghost predicate NoRepeats<T>(s: seq<T>) {
    forall i, j :: 0 <= i < j < |s| ==> s[i] != s[j]
  }

  lemma {:induction false} NoRepeatsCardinality<T>(s: seq<T>, elems: set<T>)
    requires NoRepeats(s) && elems == (set x | x in s)
    ensures |elems| == |s|
  {
    if s == [] {
      assert elems == {};
    } else {
      var init, x := s[..|s| - 1], s[|s| - 1];
      NoRepeatsCardinality(init, elems - {x});
    }
  }

  // ---------------------------------------------------------------- subsequences

  /** The elements of xs are those of ys at the increasing positions `at`. */
  ghost predicate SubsequenceAt<T>(xs: seq<T>, ys: seq<T>, at: seq<nat>) {
    && |at| == |xs|
    && (forall i :: 0 <= i < |at| ==> at[i] < |ys| && xs[i] == ys[at[i]])
    && (forall i, j :: 0 <= i < j < |at| ==> at[i] < at[j])
  }

  ghost predicate Subsequence<T>(xs: seq<T>, ys: seq<T>) {
    exists at: seq<nat> :: SubsequenceAt(xs, ys, at)
  }

  lemma SubsequenceAppend<T>(xs: seq<T>, ys: seq<T>, zs: seq<T>)
    requires Subsequence(xs, ys)
    ensures Subsequence(xs, ys + zs) && Subsequence(xs + zs, ys + zs)
  {
    var at: seq<nat> :| SubsequenceAt(xs, ys, at);
    var more: seq<nat> := seq(|zs|, i requires 0 <= i < |zs| => |ys| + i);
    assert SubsequenceAt(xs, ys + zs, at);
    assert SubsequenceAt(xs + zs, ys + zs, at + more);
  }
}
