/** Topics as byte strings, in lexicographic order. */
module Topics {
  import opened Basics

  type Topic = seq<byte>

  /** Lexicographic order: at some point `a` ends or has the smaller byte. */
  ghost predicate Less(a: Topic, b: Topic) { exists i: nat :: SplitsAt(a, b, i) }

  predicate SplitsAt(a: Topic, b: Topic, i: nat) {
    && i <= |a| && i < |b| && a[..i] == b[..i]
    && (i < |a| ==> a[i] < b[i])
  }

  ghost predicate Increasing(xs: seq<Topic>) { forall i, j :: 0 <= i < j < |xs| ==> Less(xs[i], xs[j]) }

  /** Topics in lexicographic order are all different. */
  lemma IncreasingDistinct(xs: seq<Topic>)
    requires Increasing(xs)
    ensures forall i, j :: 0 <= i < j < |xs| ==> xs[i] != xs[j]
  {}

  /** The order of two topics that share a path is decided by the next byte. */
  lemma LessAfter(path: Topic, x: Topic, y: Topic)
    requires path <= x && path <= y && |y| > |path|
    requires |x| > |path| ==> x[|path|] < y[|path|]
    ensures Less(x, y)
  {
    assert x[..|path|] == path == y[..|path|];
    assert SplitsAt(x, y, |path|);
  }
}
