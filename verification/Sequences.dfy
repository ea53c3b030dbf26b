/** Subsequences, and how many elements a set can inject into another. */
module Sequences {

  /** ix picks a out of b, in order. */
  ghost predicate Embeds<T>(a: seq<T>, b: seq<T>, ix: seq<nat>) {
    && |ix| == |a|
    && (forall i :: 0 <= i < |ix| ==> ix[i] < |b| && a[i] == b[ix[i]])
    && (forall i, j :: 0 <= i < j < |ix| ==> ix[i] < ix[j])
  }

  ghost predicate Subsequence<T>(a: seq<T>, b: seq<T>) {
    exists ix :: Embeds(a, b, ix)
  }

  /** If every element of a occurs in b, and later elements of a only occur later in b, a is a subsequence of b. */
  lemma OrderedSubset<T>(a: seq<T>, b: seq<T>)
    requires forall x :: x in a ==> x in b
    requires forall i, j, p, q :: 0 <= i < j < |a| && 0 <= p < |b| && 0 <= q < |b| && b[p] == a[i] && b[q] == a[j] ==> p < q
    ensures Subsequence(a, b)
  {
    var ix: seq<nat> := seq(|a|, i requires 0 <= i < |a| => assert a[i] in b; var p: nat :| p < |b| && b[p] == a[i]; p);
    assert Embeds(a, b, ix);
  }

  lemma {:induction false} EmbedBounds(ix: seq<nat>, n: nat, i: nat)
    requires i < |ix| && (forall k :: 0 <= k < |ix| ==> ix[k] < n)
    requires forall j, k :: 0 <= j < k < |ix| ==> ix[j] < ix[k]
    ensures i <= ix[i] <= n - (|ix| - i)
  {
    if i > 0 {
      EmbedLow(ix, n, i);
    }
    EmbedHigh(ix, n, i);
  }

  lemma {:induction false} EmbedLow(ix: seq<nat>, n: nat, i: nat)
    requires i < |ix| && forall j, k :: 0 <= j < k < |ix| ==> ix[j] < ix[k]
    ensures i <= ix[i]
  {
    if i > 0 {
      EmbedLow(ix, n, i - 1);
      assert ix[i - 1] < ix[i];
    }
  }

  lemma {:induction false} EmbedHigh(ix: seq<nat>, n: nat, i: nat)
    requires i < |ix| && (forall k :: 0 <= k < |ix| ==> ix[k] < n)
    requires forall j, k :: 0 <= j < k < |ix| ==> ix[j] < ix[k]
    ensures ix[i] <= n - (|ix| - i)
    decreases |ix| - i
  {
    if i + 1 < |ix| {
      EmbedHigh(ix, n, i + 1);
      assert ix[i] < ix[i + 1];
    }
  }

  /** A subsequence is no longer than the sequence, and of the same length only if it is the sequence. */
  lemma SubsequenceLength<T>(a: seq<T>, b: seq<T>)
    requires Subsequence(a, b)
    ensures |a| <= |b| && (|a| == |b| ==> a == b)
  {
    var ix :| Embeds(a, b, ix);
    forall i | 0 <= i < |a| ensures i <= ix[i] <= |b| - (|a| - i) {
      EmbedBounds(ix, |b|, i);
    }
    if |a| > 0 {
      assert 0 <= ix[0] <= |b| - |a|;
    }
  }

  /** A set that a map sends one to one into another is no larger. */
  lemma {:induction false} InjectionSize<A, B>(dom: set<A>, f: map<A, B>, cod: set<B>)
    requires dom <= f.Keys && (forall a :: a in dom ==> f[a] in cod)
    requires forall a, b :: a in dom && b in dom && f[a] == f[b] ==> a == b
    ensures |dom| <= |cod|
    decreases |dom|
  {
    if dom != {} {
      var a :| a in dom;
      InjectionSize(dom - {a}, f, cod - {f[a]});
    }
  }
}
