/** array_t: a vector of pipes in which every pipe knows its own position, so that it can be
    found, swapped and erased in constant time. */
module PipeArray {
  import opened Basics

  ghost predicate Distinct(s: seq<Pipe>) { forall i, j :: 0 <= i < j < |s| ==> s[i] != s[j] }

  function Swapped(s: seq<Pipe>, i: nat, j: nat): (r: seq<Pipe>)
    requires i < |s| && j < |s|
    ensures |r| == |s|
  {
    s[i := s[j]][j := s[i]]
  }

  /** The pipes in the first `n` positions. */
  function Front(s: seq<Pipe>, n: nat): (r: set<Pipe>)
    requires n <= |s|
  {
    set p | p in s[..n]
  }

  lemma SwapKeepsDistinct(s: seq<Pipe>, i: nat, j: nat)
    requires Distinct(s) && i < |s| && j < |s|
    ensures Distinct(Swapped(s, i, j))
  {}

  lemma SwapSelf(s: seq<Pipe>, i: nat)
    requires i < |s|
    ensures Swapped(s, i, i) == s
  {}

  /** A swap on one side of position `n` does not change what is in front of it. */
  lemma SwapAside(s: seq<Pipe>, i: nat, j: nat, n: nat)
    requires i < |s| && j < |s| && n <= |s| && (i < n <==> j < n)
    ensures Front(Swapped(s, i, j), n) == Front(s, n)
  {
    var r := Swapped(s, i, j);
    forall p | p in Front(s, n) ensures p in Front(r, n) {
      var k :| 0 <= k < n && s[..n][k] == p;
      assert r[..n][if k == i then j else if k == j then i else k] == p;
    }
    forall p | p in Front(r, n) ensures p in Front(s, n) {
      var k :| 0 <= k < n && r[..n][k] == p;
      assert s[..n][if k == i then j else if k == j then i else k] == p;
    }
  }

  /** A swap neither adds a pipe nor drops one. */
  lemma SwapMembers(s: seq<Pipe>, i: nat, j: nat)
    requires i < |s| && j < |s|
    ensures forall p :: p in Swapped(s, i, j) <==> p in s
  {
    forall p | p in s ensures p in Swapped(s, i, j) {
      var k :| 0 <= k < |s| && s[k] == p;
      assert Swapped(s, i, j)[if k == i then j else if k == j then i else k] == p;
    }
  }

  /** Erasing drops one pipe. */
  lemma ErasedMembers(s: seq<Pipe>, i: nat)
    requires Distinct(s) && i < |s|
    ensures forall p :: p in Swapped(s, i, |s| - 1)[..|s| - 1] <==> p in s && p != s[i]
  {
    SwapOut(s, i, |s|);
    var t := Swapped(s, i, |s| - 1);
    assert s[..|s|] == s;
    forall p | p in t[..|s| - 1] ensures p in s && p != s[i] { assert p in Front(t, |s| - 1); }
    forall p | p in s && p != s[i] ensures p in t[..|s| - 1] {
      assert p in s[..|s|];
      assert p in Front(s, |s|);
      assert p in Front(t, |s| - 1);
    }
  }

  /** A swap across position `n` exchanges one pipe in front of it. */
  lemma SwapAcross(s: seq<Pipe>, i: nat, j: nat, n: nat)
    requires Distinct(s) && j < n <= i < |s|
    ensures Front(Swapped(s, i, j), n) == Front(s, n) - {s[j]} + {s[i]}
  {
    var r := Swapped(s, i, j);
    assert r[..n] == s[..n][j := s[i]];
    assert s[..n][j] == s[j];
    forall p | p in Front(s, n) - {s[j]} ensures p in Front(r, n) {
      var k :| 0 <= k < n && s[..n][k] == p;
      assert r[..n][k] == p;
    }
    assert r[..n][j] == s[i];
  }

  lemma FrontNext(s: seq<Pipe>, n: nat)
    requires n < |s|
    ensures Front(s, n + 1) == Front(s, n) + {s[n]}
  {
    assert s[..n + 1] == s[..n] + [s[n]];
  }

  /** A pipe behind position `n` is swapped to `n` and the front grows over it. */
  lemma SwapIn(s: seq<Pipe>, i: nat, n: nat)
    requires n <= i < |s|
    ensures Front(Swapped(s, i, n), n + 1) == Front(s, n) + {s[i]}
    ensures Front(Swapped(s, i, n), n) == Front(s, n)
    ensures Swapped(s, i, n)[n] == s[i]
  {
    SwapAside(s, i, n, n);
    var r := Swapped(s, i, n);
    FrontNext(r, n);
  }

  /** A pipe in front of position `n` is swapped to its end and the front shrinks. */
  lemma SwapOut(s: seq<Pipe>, i: nat, n: nat)
    requires Distinct(s) && i < n <= |s|
    ensures Front(Swapped(s, i, n - 1), n - 1) == Front(s, n) - {s[i]}
    ensures Swapped(s, i, n - 1)[n - 1] == s[i]
  {
    SwapAside(s, i, n - 1, n);
    SwapKeepsDistinct(s, i, n - 1);
    var r := Swapped(s, i, n - 1);
    FrontNext(r, n - 1);
    InFront(r, n - 1, n - 1);
  }

  /** Positions in front are decided by the index. */
  lemma InFront(s: seq<Pipe>, i: nat, n: nat)
    requires Distinct(s) && i < |s| && n <= |s|
    ensures s[i] in Front(s, n) <==> i < n
  {
    if i < n { assert s[..n][i] == s[i]; }
    forall k | 0 <= k < n ensures s[..n][k] == s[k] {}
  }

  /** A pipe appended behind the front. */
  lemma Appended(s: seq<Pipe>, p: Pipe, n: nat)
    requires n <= |s|
    ensures Front(s + [p], n) == Front(s, n)
    ensures Front(s + [p], |s| + 1) == Front(s, |s|) + {p}
  {
    assert (s + [p])[..n] == s[..n];
    assert (s + [p])[..|s|] == s[..|s|];
    FrontNext(s + [p], |s|);
  }

  /** Erasing a pipe behind position `n` leaves the front alone. */
  lemma Erased(s: seq<Pipe>, i: nat, n: nat)
    requires n <= i < |s|
    ensures Front(Swapped(s, i, |s| - 1)[..|s| - 1], n) == Front(s, n)
  {
    assert Swapped(s, i, |s| - 1)[..|s| - 1][..n] == s[..n];
  }

  class Array {
    var items: seq<Pipe>
    var index: map<Pipe, nat>

    /** The back-index of every stored pipe is right; it is not kept up for others. */
    ghost predicate Valid()
      reads this
      ensures Valid() ==> Distinct(items)
    {
      forall i :: 0 <= i < |items| ==> items[i] in index && index[items[i]] == i
    }

    constructor ()
      ensures Valid() && items == []
    {
      items := [];
      index := map[];
    }

    function Index(p: Pipe): (r: nat)
      requires Valid() && p in items
      reads this
      ensures r < |items| && items[r] == p
    {
      index[p]
    }

    method PushBack(p: Pipe)
      requires Valid() && p !in items
      modifies this
      ensures Valid() && items == old(items) + [p]
    {
      index := index[p := |items|];
      items := items + [p];
    }

    method Swap(i: nat, j: nat)
      requires Valid() && i < |items| && j < |items|
      modifies this
      ensures Valid() && items == Swapped(old(items), i, j)
    {
      index := index[items[i] := j];
      index := index[items[j] := i];
      items := items[i := items[j]][j := items[i]];
      if i == j { assert items == old(items); }
    }

    /** The last pipe takes the place of the erased one. */
    method Erase(p: Pipe)
      requires Valid() && p in items
      modifies this
      ensures Valid() && items == Swapped(old(items), old(Index(p)), |old(items)| - 1)[..|old(items)| - 1]
    {
      var at := Index(p);
      var last := items[|items| - 1];
      index := index[last := at];
      items := items[at := last];
      items := items[..|items| - 1];
    }
  }
}
