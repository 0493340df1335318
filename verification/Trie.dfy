/** trie_t: the subscriptions of a subscriber, a trie whose nodes count how often the
    topic that leads to them was subscribed to. */
module Trie {
  import opened Basics
  import opened Window
  import opened Topics

  /** Of the topics in `bag`, those starting with `c` are the ones in `kid`. */
  ghost predicate Below(bag: multiset<Topic>, c: int, kid: multiset<Topic>) {
    forall t: Topic :: t != [] && t[0] == c ==> bag[t] == kid[t[1..]]
  }

  /** The topics that do not start with `c` are the same. */
  ghost predicate Elsewhere(bag: multiset<Topic>, c: int, was: multiset<Topic>) {
    forall t: Topic :: t == [] || t[0] != c ==> bag[t] == was[t]
  }

  lemma OneMore(bag: multiset<Topic>, kid: multiset<Topic>, t: Topic)
    requires t != [] && Below(bag, t[0], kid)
    ensures Below(bag + multiset{t}, t[0], kid + multiset{t[1..]}) && Elsewhere(bag + multiset{t}, t[0], bag)
    ensures bag[t] == kid[t[1..]]
  {
    forall u: Topic | u != [] && u[0] == t[0] ensures (bag + multiset{t})[u] == (kid + multiset{t[1..]})[u[1..]] {
      assert u == t <==> u[1..] == t[1..];
    }
  }

  lemma OneLess(bag: multiset<Topic>, kid: multiset<Topic>, t: Topic)
    requires t != [] && Below(bag, t[0], kid)
    ensures Below(bag - multiset{t}, t[0], kid - multiset{t[1..]}) && Elsewhere(bag - multiset{t}, t[0], bag)
    ensures bag[t] == kid[t[1..]]
  {
    assert bag[t] == kid[t[1..]];
    forall u: Topic | u != [] && u[0] == t[0] ensures (bag - multiset{t})[u] == (kid - multiset{t[1..]})[u[1..]] {
      assert u == t <==> u[1..] == t[1..];
    }
  }

  class Node {
    var refcnt: nat
    var w: Win<Node>
    ghost var Repr: set<Node>
    ghost var bag: multiset<Topic>

    predicate Redundant()
      reads this
    {
      refcnt == 0 && w.live == 0
    }

    ghost predicate KidOk(d: int)
      reads this, Repr
      decreases Repr, 0
    {
      Kid(w, d).Some? ==>
        var k := Kid(w, d).value;
        k in Repr && k.Repr <= Repr && this !in k.Repr && this in Repr && k.Valid() && !k.Redundant()
    }

    ghost predicate Apart(c: int, d: int)
      reads this, Repr
    {
      Kid(w, c).Some? && Kid(w, d).Some? ==>
        var k, l := Kid(w, c).value, Kid(w, d).value;
        k in Repr && l in Repr && k.Repr !! l.Repr
    }

    /** How often topic `t` is held is counted at the node or in the child. */
    ghost predicate BagAt(t: Topic)
      reads this, Repr
    {
      if t == [] then bag[t] == refcnt
      else if Kid(w, t[0]).None? then bag[t] == 0
      else Kid(w, t[0]).value in Repr && bag[t] == Kid(w, t[0]).value.bag[t[1..]]
    }

    ghost predicate Valid()
      reads this, Repr
      ensures Valid() ==> this in Repr
      decreases Repr
    {
      && this in Repr && Ok(w)
      && (forall d :: KidOk(d))
      && (forall c, d :: c != d ==> Apart(c, d))
      && (forall t :: BagAt(t))
    }

    /** Valid, but for the child at `c`, which may be redundant. */
    ghost predicate Waiting(c: int)
      reads this, Repr
    {
      && this in Repr && Ok(w)
      && (forall d :: d != c ==> KidOk(d))
      && Kid(w, c).Some? && Kid(w, c).value in Repr && Kid(w, c).value.Repr <= Repr
      && this !in Kid(w, c).value.Repr && Kid(w, c).value.Valid()
      && (forall c, d :: c != d ==> Apart(c, d))
      && (forall t :: BagAt(t))
    }

    constructor ()
      ensures Valid() && Redundant() && bag == multiset{} && fresh(Repr) && Repr == {this}
    {
      refcnt := 0;
      w := Empty();
      Repr := {this};
      bag := multiset{};
      new;
      assert forall d :: Kid(w, d).None?;
      assert Live(w) == {};
      assert forall c, d :: c != d ==> Apart(c, d);
      assert forall t :: BagAt(t);
    }

    /** The child at `c` changed within its own nodes and new ones, and the content below
        `c` was updated to match. */
    twostate lemma AfterKid(c: int)
      requires old(Waiting(c)) && w == old(w) && refcnt == old(refcnt)
      requires Kid(w, c).value.Valid() && fresh(Kid(w, c).value.Repr - old(Kid(w, c).value.Repr))
      requires Repr == old(Repr) + Kid(w, c).value.Repr
      requires unchanged(old(Repr) - old(Kid(w, c).value.Repr) - {this})
      requires Elsewhere(bag, c, old(bag))
      requires Below(bag, c, Kid(w, c).value.bag)
      ensures Waiting(c)
    {
      forall d | d != c ensures KidOk(d) {
        assert old(KidOk(d)) && old(Apart(c, d));
      }
      forall a, b | a != b ensures Apart(a, b) {
        assert old(Apart(a, b));
        if a != c { assert old(KidOk(a)) && old(Apart(c, a)); }
        if b != c { assert old(KidOk(b)) && old(Apart(c, b)); }
      }
      forall t ensures BagAt(t) {
        assert old(BagAt(t));
        if t != [] && t[0] != c { assert old(KidOk(t[0])) && old(Apart(c, t[0])); }
      }
    }

    /** Only the node's own count changed. */
    twostate lemma OwnCountChanged()
      requires old(Valid()) && w == old(w) && Repr == old(Repr)
      requires unchanged(Repr - {this})
      requires bag[[]] == refcnt
      requires forall t: Topic :: t != [] ==> bag[t] == old(bag)[t]
      ensures Valid()
    {
      forall t ensures BagAt(t) {
        assert old(BagAt(t));
        if t != [] { assert old(KidOk(t[0])); }
      }
      forall d ensures KidOk(d) { assert old(KidOk(d)); }
      forall c, d | c != d ensures Apart(c, d) { assert old(Apart(c, d)); }
    }

    /** Holds the topic once more; true when it was not held before. */
    method Add(prefix: Topic) returns (r: bool)
      requires Valid()
      modifies Repr
      ensures Valid() && old(Repr) <= Repr && fresh(Repr - old(Repr))
      ensures bag == old(bag) + multiset{prefix}
      ensures r <==> old(bag)[prefix] == 0
      ensures !Redundant()
      decreases |prefix|, 1
    {
      if |prefix| == 0 {
        assert BagAt([]);
        refcnt := refcnt + 1;
        bag := bag + multiset{prefix};
        OwnCountChanged();
        return refcnt == 1;
      }
      assert BagAt(prefix) && KidOk(prefix[0]);
      if Kid(w, prefix[0]).None? { NewKid(prefix[0]); }
      assert BagAt(prefix) && Waiting(prefix[0]);
      r := AddBelow(prefix);
    }

    method AddBelow(prefix: Topic) returns (r: bool)
      requires prefix != [] && Waiting(prefix[0])
      modifies Repr
      ensures Valid() && old(Repr) <= Repr && fresh(Repr - old(Repr))
      ensures bag == old(bag) + multiset{prefix}
      ensures r <==> old(bag)[prefix] == 0
      ensures !Redundant()
      decreases |prefix|, 0
    {
      var c := prefix[0];
      var k := Kid(w, c).value;
      KidBag(c);
      OneMore(bag, k.bag, prefix);
      r := k.Add(prefix[1..]);
      Repr := Repr + k.Repr;
      bag := bag + multiset{prefix};
      AfterKid(c);
      Settled(c);
      TwoLive(w);
    }

    method NewKid(c: byte)
      requires Valid() && Kid(w, c).None?
      modifies this`w, this`Repr
      ensures Waiting(c) && old(Repr) <= Repr && fresh(Repr - old(Repr))
      ensures SameBut(old(w), w, c)
      ensures fresh(Kid(w, c).value) && Kid(w, c).value.bag == multiset{}
    {
      var k := new Node();
      w := Insert(w, c, k);
      Repr := Repr + {k};
      forall d | d != c ensures KidOk(d) { assert old(KidOk(d)); }
      forall a, b | a != b ensures Apart(a, b) { assert old(Apart(a, b)) && old(KidOk(a)) && old(KidOk(b)); }
      forall t ensures BagAt(t) { assert old(BagAt(t)); }
    }

    /** A redundant node leads to no held topic. */
    lemma Barren()
      requires Valid() && Redundant()
      ensures bag == multiset{}
    {
      forall t ensures bag[t] == 0 {
        assert BagAt(t);
        if t != [] { assert t[0] !in Live(w); }
      }
    }

    /** Gives up the topic once; true when that was the last time. A topic that is not held is
        left alone. */
    method Rm(prefix: Topic) returns (r: bool)
      requires Valid()
      modifies Repr
      ensures Valid() && Repr == old(Repr)
      ensures bag == old(bag) - multiset{prefix}
      ensures r <==> old(bag)[prefix] == 1
      decreases |prefix|, 1
    {
      if |prefix| == 0 {
        assert BagAt([]);
        if refcnt == 0 { return false; }
        refcnt := refcnt - 1;
        bag := bag - multiset{prefix};
        OwnCountChanged();
        return refcnt == 0;
      }
      assert BagAt(prefix) && KidOk(prefix[0]);
      if Kid(w, prefix[0]).None? {
        return false;
      }
      Ready(prefix[0]);
      r := RmBelow(prefix);
      if Kid(w, prefix[0]).value.Redundant() { DropKid(prefix[0]); } else { Settled(prefix[0]); }
    }

    method RmBelow(prefix: Topic) returns (r: bool)
      requires prefix != [] && Waiting(prefix[0])
      modifies Repr
      ensures Waiting(prefix[0]) && Repr == old(Repr)
      ensures bag == old(bag) - multiset{prefix}
      ensures r <==> old(bag)[prefix] == 1
      decreases |prefix|, 0
    {
      var c := prefix[0];
      var k := Kid(w, c).value;
      KidBag(c);
      OneLess(bag, k.bag, prefix);
      r := k.Rm(prefix[1..]);
      bag := bag - multiset{prefix};
      AfterKid(c);
    }

    /** What is held below byte `c` is what the child holds. */
    lemma KidBag(c: byte)
      requires Waiting(c)
      ensures Below(bag, c, Kid(w, c).value.bag)
    {
      forall t: Topic | t != [] && t[0] == c ensures bag[t] == Kid(w, c).value.bag[t[1..]] { assert BagAt(t); }
    }

    lemma Ready(c: int)
      requires Valid() && Kid(w, c).Some?
      ensures Waiting(c)
    {
      assert KidOk(c);
    }

    /** The child at `c` is not redundant after all. */
    lemma Settled(c: int)
      requires Waiting(c) && !Kid(w, c).value.Redundant()
      ensures Valid()
    {
      assert KidOk(c);
    }

    /** The redundant child at `c` is deleted and the table compacted. */
    method DropKid(c: byte)
      requires Waiting(c) && Kid(w, c).value.Redundant()
      modifies this`w
      ensures Valid() && Kid(w, c).None?
    {
      Kid(w, c).value.Barren();
      w := PruneTrie(w, c);
      KidDropped(c);
    }

    /** The child at `c`, which held no topic, is gone from the window. */
    twostate lemma KidDropped(c: int)
      requires old(Waiting(c)) && old(Kid(w, c).value.bag) == multiset{}
      requires refcnt == old(refcnt) && Repr == old(Repr) && bag == old(bag)
      requires unchanged(Repr - {this})
      requires Ok(w) && Kid(w, c).None? && SameBut(old(w), w, c)
      ensures Valid()
    {
      forall d ensures KidOk(d) { if d != c { assert old(KidOk(d)); } }
      forall a, b | a != b ensures Apart(a, b) { assert old(Apart(a, b)); }
      forall t ensures BagAt(t) {
        assert old(BagAt(t));
        if t != [] && t[0] != c { assert old(KidOk(t[0])); }
      }
    }

    /** True when some held topic is a prefix of `data`. */
    method Check(data: Topic) returns (r: bool)
      requires Valid()
      ensures r <==> exists i :: 0 <= i <= |data| && data[..i] in bag
    {
      var current := this;
      var n := 0;
      assert data[..0] == [];
      assert forall t: Topic :: [] + t == t;
      while true
        invariant n <= |data| && current.Valid() && current.Under(this, data[..n])
        invariant forall i :: 0 <= i < n ==> data[..i] !in bag
        decreases |data| - n
      {
        assert data[..n] + [] == data[..n];
        assert current.BagAt([]);
        if current.refcnt > 0 { return true; }
        if n == |data| { return false; }
        assert current.KidOk(data[n]);
        if Kid(current.w, data[n]).None? {
          current.NothingPast(this, data, n);
          return false;
        }
        current.Descend(this, data, n);
        current := Kid(current.w, data[n]).value;
        n := n + 1;
      }
    }

    /** This node is where `path` leads to from `root`. */
    ghost predicate Under(root: Node, path: Topic)
      reads this, root
    {
      forall t: Topic :: bag[t] == root.bag[path + t]
    }

    lemma Descend(root: Node, data: Topic, n: nat)
      requires Valid() && n < |data| && Under(root, data[..n]) && Kid(w, data[n]).Some?
      ensures KidOk(data[n]) && Kid(w, data[n]).value.Under(root, data[..n + 1])
    {
      assert KidOk(data[n]);
      var k := Kid(w, data[n]).value;
      forall t: Topic ensures k.bag[t] == root.bag[data[..n + 1] + t] {
        var u := [data[n]] + t;
        assert u[0] == data[n] && u[1..] == t;
        assert BagAt(u);
        assert data[..n] + u == data[..n + 1] + t;
      }
    }

    lemma NothingPast(root: Node, data: Topic, n: nat)
      requires Valid() && n < |data| && Under(root, data[..n]) && Kid(w, data[n]).None?
      ensures forall i :: n < i <= |data| ==> data[..i] !in root.bag
    {
      forall i | n < i <= |data| ensures data[..i] !in root.bag {
        assert BagAt(data[n..i]);
        assert data[..n] + data[n..i] == data[..i];
      }
    }

    /** Visits every held topic once, in lexicographic order; `buff` is the node's own topic. */
    method Apply(buff: Topic) returns (calls: seq<Topic>)
      requires Valid()
      ensures Visits(calls, buff, bag)
      decreases Repr, 2
    {
      calls := if refcnt > 0 then [buff] else [];
      AllAbove();
      assert BagAt([]);
      OwnVisit(calls, buff, bag, w.min);
      if w.count == 1 {
        calls := ApplySlot(w.min, buff, calls);
      } else if w.count > 1 {
        var i := 0;
        while i != w.count
          invariant 0 <= i <= w.count
          invariant VisitsTo(calls, buff, bag, w.min + i)
          decreases w.count - i
        {
          calls := ApplySlot(w.min + i, buff, calls);
          i := i + 1;
        }
      }
      AllVisited(calls, buff, bag, w.min + w.count);
    }

    /** One slot, with or without a child. */
    method ApplySlot(c: byte, buff: Topic, done: seq<Topic>) returns (calls: seq<Topic>)
      requires Valid() && VisitsTo(done, buff, bag, c)
      ensures VisitsTo(calls, buff, bag, c + 1)
      decreases Repr, 1
    {
      calls := done;
      if Kid(w, c).Some? {
        var below := ApplyKid(c, buff);
        JoinVisits(done, below, buff, bag, c);
        calls := done + below;
      } else {
        NothingAt(c);
        SkipVisit(done, buff, bag, c);
      }
    }

    method ApplyKid(c: byte, buff: Topic) returns (calls: seq<Topic>)
      requires Valid() && Kid(w, c).Some?
      ensures VisitsAt(calls, buff, bag, c)
      decreases Repr, 0
    {
      Ready(c);
      var k := Kid(w, c).value;
      calls := k.Apply(buff + [c]);
      KidBag(c);
      VisitsBelow(calls, buff, bag, k.bag, c);
    }

    lemma AllAbove()
      requires Valid()
      ensures forall t: Topic :: t in bag && t != [] ==> w.min <= t[0] < w.min + w.count
    {
      forall t: Topic | t in bag && t != [] ensures w.min <= t[0] < w.min + w.count { assert BagAt(t); }
    }

    lemma NothingAt(c: int)
      requires Valid() && Kid(w, c).None?
      ensures forall t: Topic :: t != [] && t[0] == c ==> t !in bag
    {
      forall t: Topic | t != [] && t[0] == c ensures t !in bag { assert BagAt(t); }
    }
  }

  // ----- The order of visits ------------------------------------------------------------

  /** Topic `x` is `buff` followed by a held topic. */
  predicate Held(x: Topic, buff: Topic, bag: multiset<Topic>) { buff <= x && x[|buff|..] in bag }

  /** In order, once each, exactly the held topics. */
  ghost predicate Visits(calls: seq<Topic>, buff: Topic, bag: multiset<Topic>) {
    Increasing(calls) && forall x :: x in calls <==> Held(x, buff, bag)
  }

  /** ... those below slots smaller than `hi` ... */
  ghost predicate VisitsTo(calls: seq<Topic>, buff: Topic, bag: multiset<Topic>, hi: int) {
    Increasing(calls) && forall x :: x in calls <==> Held(x, buff, bag) && (|x| > |buff| ==> x[|buff|] < hi)
  }

  /** ... and those below slot `c`. */
  ghost predicate VisitsAt(calls: seq<Topic>, buff: Topic, bag: multiset<Topic>, c: int) {
    Increasing(calls) && forall x :: x in calls <==> Held(x, buff, bag) && |x| > |buff| && x[|buff|] == c
  }

  lemma OwnVisit(calls: seq<Topic>, buff: Topic, bag: multiset<Topic>, lo: int)
    requires calls == if [] in bag then [buff] else []
    requires forall t: Topic :: t in bag && t != [] ==> lo <= t[0]
    ensures VisitsTo(calls, buff, bag, lo)
  {
    assert buff[|buff|..] == [];
    forall x: Topic | Held(x, buff, bag) && x != buff ensures |x| > |buff| && x[|buff|] >= lo {
      assert x == buff + x[|buff|..];
      assert x[|buff|..][0] == x[|buff|];
    }
  }

  lemma VisitsBelow(calls: seq<Topic>, buff: Topic, bag: multiset<Topic>, below: multiset<Topic>, c: byte)
    requires Below(bag, c, below) && Visits(calls, buff + [c], below)
    ensures VisitsAt(calls, buff, bag, c)
  {
    forall x: Topic ensures Held(x, buff + [c], below) <==> Held(x, buff, bag) && |x| > |buff| && x[|buff|] == c {
      if |x| > |buff| {
        assert buff + [c] <= x <==> buff <= x && x[|buff|] == c;
        assert x[|buff|..][1..] == x[|buff| + 1..];
        assert x[|buff|..] != [] && x[|buff|..][0] == x[|buff|];
      }
    }
  }

  lemma JoinVisits(calls: seq<Topic>, more: seq<Topic>, buff: Topic, bag: multiset<Topic>, c: int)
    requires VisitsTo(calls, buff, bag, c) && VisitsAt(more, buff, bag, c)
    ensures VisitsTo(calls + more, buff, bag, c + 1)
  {
    forall x: Topic, y: Topic | x in calls && y in more ensures Less(x, y) {
      LessAfter(buff, x, y);
    }
  }

  lemma SkipVisit(calls: seq<Topic>, buff: Topic, bag: multiset<Topic>, c: int)
    requires VisitsTo(calls, buff, bag, c)
    requires forall t: Topic :: t != [] && t[0] == c ==> t !in bag
    ensures VisitsTo(calls, buff, bag, c + 1)
  {
    forall x: Topic | Held(x, buff, bag) && |x| > |buff| ensures x[|buff|] != c {
      assert x[|buff|..][0] == x[|buff|];
    }
  }

  lemma AllVisited(calls: seq<Topic>, buff: Topic, bag: multiset<Topic>, hi: int)
    requires forall t: Topic :: t in bag && t != [] ==> t[0] < hi
    requires VisitsTo(calls, buff, bag, hi)
    ensures Visits(calls, buff, bag)
  {
    forall x: Topic | Held(x, buff, bag) && |x| > |buff| ensures x[|buff|] < hi {
      assert x[|buff|..][0] == x[|buff|];
    }
  }
}
