/** mtrie_t: the subscription index of a publisher, a trie whose nodes carry the
    pipes subscribed to the topic that leads to them. */
module MTrie {
  import opened Basics
  import opened Window
  import opened Topics

  /** The subscribers of a topic. */
  function Get(subs: map<Topic, set<Pipe>>, t: Topic): set<Pipe> { if t in subs then subs[t] else {} }

  /** The subscriptions after `p` gave up topic `t`. */
  function Without(subs: map<Topic, set<Pipe>>, t: Topic, p: Pipe): map<Topic, set<Pipe>> {
    if t !in subs then subs
    else if subs[t] - {p} == {} then map k | k in subs && k != t :: subs[k]
    else subs[t := subs[t] - {p}]
  }

  /** The trie has a node for `t`: the root, or a point on the way to a subscribed topic. */
  ghost predicate IsNode(subs: map<Topic, set<Pipe>>, t: Topic) {
    t == [] || exists k :: k in subs && t <= k
  }

  /** `p` is subscribed to some prefix of `data`. */
  ghost predicate Matches(subs: map<Topic, set<Pipe>>, data: Topic, p: Pipe) {
    exists i :: 0 <= i <= |data| && p in Get(subs, data[..i])
  }

  /** ... shorter than `n`. */
  ghost predicate MatchesBelow(subs: map<Topic, set<Pipe>>, data: Topic, n: nat, p: Pipe) {
    exists i :: 0 <= i < n && i <= |data| && p in Get(subs, data[..i])
  }

  lemma MatchesNext(subs: map<Topic, set<Pipe>>, data: Topic, n: nat, marks: seq<Pipe>, here: seq<Pipe>)
    requires n <= |data| && forall p :: p in marks <==> MatchesBelow(subs, data, n, p)
    requires forall p :: p in here <==> p in Get(subs, data[..n])
    ensures forall p :: p in marks + here <==> MatchesBelow(subs, data, n + 1, p)
  {
  }

  lemma MatchesAll(subs: map<Topic, set<Pipe>>, data: Topic, n: nat, p: Pipe)
    requires n <= |data| && forall i :: n < i <= |data| ==> data[..i] !in subs
    ensures MatchesBelow(subs, data, n + 1, p) <==> Matches(subs, data, p)
  {
  }

  /** Of the subscriptions in `subs`, those to topics starting with `c` are the ones in `kid`. */
  ghost predicate Below(subs: map<Topic, set<Pipe>>, c: int, kid: map<Topic, set<Pipe>>) {
    forall t: Topic :: t != [] && t[0] == c ==> (t in subs <==> t[1..] in kid) && (t in subs ==> subs[t] == kid[t[1..]])
  }

  function With(subs: map<Topic, set<Pipe>>, t: Topic, p: Pipe): map<Topic, set<Pipe>> { subs[t := Get(subs, t) + {p}] }

  lemma WithBelow(subs: map<Topic, set<Pipe>>, kid: map<Topic, set<Pipe>>, t: Topic, p: Pipe)
    requires t != [] && Below(subs, t[0], kid)
    ensures Below(With(subs, t, p), t[0], With(kid, t[1..], p)) && (t in subs <==> t[1..] in kid)
  {
    forall u: Topic | u != [] && u[0] == t[0]
      ensures u in With(subs, t, p) <==> u[1..] in With(kid, t[1..], p)
      ensures u in With(subs, t, p) ==> With(subs, t, p)[u] == With(kid, t[1..], p)[u[1..]]
    {
      assert u == t <==> u[1..] == t[1..];
    }
  }

  lemma WithoutBelow(subs: map<Topic, set<Pipe>>, kid: map<Topic, set<Pipe>>, t: Topic, p: Pipe)
    requires t != [] && Below(subs, t[0], kid)
    ensures Below(Without(subs, t, p), t[0], Without(kid, t[1..], p)) && (t in subs <==> t[1..] in kid)
    ensures t in subs ==> (t in Without(subs, t, p) <==> t[1..] in Without(kid, t[1..], p))
  {
    forall u: Topic | u != [] && u[0] == t[0]
      ensures u in Without(subs, t, p) <==> u[1..] in Without(kid, t[1..], p)
      ensures u in Without(subs, t, p) ==> Without(subs, t, p)[u] == Without(kid, t[1..], p)[u[1..]]
    {
      assert u == t <==> u[1..] == t[1..];
    }
  }

  /** One call per pipe of a node. */
  method Signal(pipes: set<Pipe>) returns (marks: seq<Pipe>)
    ensures multiset(marks) == multiset(pipes)
    ensures forall p :: p in marks <==> p in pipes
  {
    var left := pipes;
    marks := [];
    while left != {}
      invariant left <= pipes && multiset(marks) == multiset(pipes - left)
      decreases |left|
    {
      var p :| p in left;
      marks := marks + [p];
      left := left - {p};
    }
    assert pipes - left == pipes;
    assert forall p :: p in marks <==> p in multiset(marks);
  }

  class Node {
    var pipes: Option<set<Pipe>>
    var w: Win<Node>
    ghost var Repr: set<Node>
    ghost var subs: map<Topic, set<Pipe>>

    predicate Redundant()
      reads this
    {
      pipes.None? && w.live == 0
    }

    /** The child for byte `d` is a proper subtrie of its own. */
    ghost predicate KidOk(d: int)
      reads this, Repr
      decreases Repr, 0
    {
      Kid(w, d).Some? ==>
        var k := Kid(w, d).value;
        k in Repr && k.Repr <= Repr && this !in k.Repr && this in Repr && k.Valid() && !k.Redundant()
    }

    ghost predicate Apart(c: int, d: int)
      reads this, Repr
    {
      Kid(w, c).Some? && Kid(w, d).Some? ==>
        var k, l := Kid(w, c).value, Kid(w, d).value;
        k in Repr && l in Repr && k.Repr !! l.Repr
    }

    /** The abstract content at topic `t` is that of the node or of the child. */
    ghost predicate SubsAt(t: Topic)
      reads this, Repr
    {
      if t == [] then
        (t in subs <==> pipes.Some?) && (t in subs ==> subs[t] == pipes.value)
      else if Kid(w, t[0]).None? then t !in subs
      else
        var k := Kid(w, t[0]).value;
        && k in Repr
        && (t in subs <==> t[1..] in k.subs)
        && (t in subs ==> subs[t] == k.subs[t[1..]])
    }

    ghost predicate Valid()
      reads this, Repr
      ensures Valid() ==> this in Repr
      decreases Repr
    {
      && this in Repr && Ok(w) && (pipes.Some? ==> pipes.value != {})
      && (forall d :: KidOk(d))
      && (forall c, d :: c != d ==> Apart(c, d))
      && (forall t :: SubsAt(t))
    }

    /** Valid, but for unused slots at the ends of the window. */
    ghost predicate Loose()
      reads this, Repr
    {
      && this in Repr && Shape(w) && (pipes.Some? ==> pipes.value != {})
      && (forall d :: KidOk(d))
      && (forall c, d :: c != d ==> Apart(c, d))
      && (forall t :: SubsAt(t))
    }

    constructor ()
      ensures Valid() && Redundant() && subs == map[] && fresh(Repr) && Repr == {this}
    {
      pipes := None;
      w := Empty();
      Repr := {this};
      subs := map[];
      new;
      assert forall d :: Kid(w, d).None?;
      assert Live(w) == {};
      assert forall c, d :: c != d ==> Apart(c, d);
      assert forall t :: SubsAt(t);
    }

    /** Loose, but for the child at `c`, which may be redundant. */
    ghost predicate Waiting(c: int)
      reads this, Repr
    {
      && this in Repr && Shape(w) && (pipes.Some? ==> pipes.value != {})
      && (forall d :: d != c ==> KidOk(d))
      && Kid(w, c).Some? && Kid(w, c).value in Repr && Kid(w, c).value.Repr <= Repr
      && this !in Kid(w, c).value.Repr && Kid(w, c).value.Valid()
      && (forall c, d :: c != d ==> Apart(c, d))
      && (forall t :: SubsAt(t))
    }

    /** The child at `c` changed within its own nodes and new ones, and the content
        below `c` was updated to match. */
    twostate lemma AfterKid(c: int)
      requires old(Waiting(c)) && w == old(w) && pipes == old(pipes)
      requires Kid(w, c).value.Valid() && fresh(Kid(w, c).value.Repr - old(Kid(w, c).value.Repr))
      requires Repr == old(Repr) + Kid(w, c).value.Repr
      requires unchanged(old(Repr) - old(Kid(w, c).value.Repr) - {this})
      requires forall t: Topic :: t == [] || t[0] != c ==> (t in subs <==> t in old(subs)) && (t in subs ==> subs[t] == old(subs)[t])
      requires Below(subs, c, Kid(w, c).value.subs)
      ensures Waiting(c)
    {
      forall d | d != c ensures KidOk(d) {
        assert old(KidOk(d)) && old(Apart(c, d));
      }
      forall a, b | a != b ensures Apart(a, b) {
        assert old(Apart(a, b));
        if a != c { assert old(KidOk(a)) && old(Apart(c, a)); }
        if b != c { assert old(KidOk(b)) && old(Apart(c, b)); }
      }
      forall t ensures SubsAt(t) {
        assert old(SubsAt(t));
        if t != [] && t[0] != c { assert old(KidOk(t[0])) && old(Apart(c, t[0])); }
      }
    }

    /** What is subscribed to below byte `c` is what the child holds. */
    lemma KidSubs(c: byte)
      requires Waiting(c)
      ensures Below(subs, c, Kid(w, c).value.subs)
    {
      forall t: Topic | t != [] && t[0] == c
        ensures (t in subs <==> t[1..] in Kid(w, c).value.subs) && (t in subs ==> subs[t] == Kid(w, c).value.subs[t[1..]])
      {
        assert SubsAt(t);
      }
    }

    lemma Ready(c: int)
      requires Valid() && Kid(w, c).Some?
      ensures Waiting(c)
    {
      assert KidOk(c);
    }

    /** Subscribes `pipe`; true when the topic had no subscriber before. */
    method Add(prefix: Topic, pipe: Pipe) returns (r: bool)
      requires Valid()
      modifies Repr
      ensures Valid() && old(Repr) <= Repr && fresh(Repr - old(Repr))
      ensures subs == With(old(subs), prefix, pipe)
      ensures r <==> prefix !in old(subs)
      ensures !Redundant()
      decreases |prefix|, 1
    {
      if |prefix| == 0 {
        r := AddHere(pipe);
        return;
      }
      if Kid(w, prefix[0]).None? { NewKid(prefix[0]); } else { Ready(prefix[0]); }
      r := AddBelow(prefix, pipe);
    }

    method AddHere(pipe: Pipe) returns (r: bool)
      requires Valid()
      modifies this`pipes, this`subs
      ensures Valid() && subs == With(old(subs), [], pipe) && !Redundant()
      ensures r <==> [] !in old(subs)
    {
      assert SubsAt([]);
      r := pipes.None?;
      pipes := Some((if pipes.Some? then pipes.value else {}) + {pipe});
      subs := With(subs, [], pipe);
      OwnPipesChanged();
    }

    method AddBelow(prefix: Topic, pipe: Pipe) returns (r: bool)
      requires prefix != [] && Waiting(prefix[0]) && Ok(w)
      modifies Repr
      ensures Valid() && old(Repr) <= Repr && fresh(Repr - old(Repr))
      ensures subs == With(old(subs), prefix, pipe)
      ensures r <==> prefix !in old(subs)
      ensures !Redundant()
      decreases |prefix|, 0
    {
      var c := prefix[0];
      var k := Kid(w, c).value;
      KidSubs(c);
      WithBelow(subs, k.subs, prefix, pipe);
      r := k.Add(prefix[1..], pipe);
      Repr := Repr + k.Repr;
      subs := With(subs, prefix, pipe);
      AfterKid(c);
      Settled(c);
      TwoLive(w);
    }

    /** The child at `c` is not redundant after all. */
    lemma Settled(c: int)
      requires Waiting(c) && !Kid(w, c).value.Redundant()
      ensures Loose()
    {
      assert KidOk(c);
    }

    /** Only the node's own pipes changed. */
    twostate lemma OwnPipesChanged()
      requires old(Valid()) && w == old(w) && Repr == old(Repr)
      requires unchanged(Repr - {this})
      requires pipes.Some? ==> pipes.value != {}
      requires [] in subs <==> pipes.Some?
      requires [] in subs ==> subs[[]] == pipes.value
      requires forall t: Topic :: t != [] ==> (t in subs <==> t in old(subs)) && (t in subs ==> subs[t] == old(subs)[t])
      ensures Valid()
    {
      forall t ensures SubsAt(t) {
        assert old(SubsAt(t));
        if t != [] { assert old(KidOk(t[0])); }
      }
      forall d ensures KidOk(d) { assert old(KidOk(d)); }
      forall c, d | c != d ensures Apart(c, d) { assert old(Apart(c, d)); }
    }

    method NewKid(c: byte)
      requires Valid() && Kid(w, c).None?
      modifies this`w, this`Repr
      ensures Waiting(c) && Ok(w) && old(Repr) <= Repr && fresh(Repr - old(Repr))
      ensures SameBut(old(w), w, c)
      ensures fresh(Kid(w, c).value) && Kid(w, c).value.subs == map[]
    {
      var k := new Node();
      w := Insert(w, c, k);
      Repr := Repr + {k};
      forall d | d != c ensures KidOk(d) { assert old(KidOk(d)); }
      forall a, b | a != b ensures Apart(a, b) { assert old(Apart(a, b)) && old(KidOk(a)) && old(KidOk(b)); }
      forall t ensures SubsAt(t) { assert old(SubsAt(t)); }
    }

    /** A node that is not redundant leads to a subscription. */
    lemma {:induction false} Inhabited() returns (t: Topic)
      requires Valid() && !Redundant()
      ensures t in subs
      decreases Repr
    {
      if pipes.Some? {
        t := [];
        assert SubsAt(t);
      } else {
        var d :| d in Live(w);
        assert KidOk(d);
        var k := Kid(w, d).value;
        var u := k.Inhabited();
        t := [d] + u;
        assert t[0] == d && t[1..] == u;
        assert SubsAt(t);
      }
    }

    /** A redundant node leads to none. */
    lemma Barren()
      requires Valid() && Redundant()
      ensures subs == map[]
    {
      forall t ensures t !in subs {
        assert SubsAt(t);
        if t != [] { assert t[0] !in Live(w); }
      }
    }

    /** Unsubscribes `pipe`, which must be subscribed if anyone is. The result is true also for
        an inner node that nobody subscribed to. */
    method RmTopic(prefix: Topic, pipe: Pipe) returns (r: bool)
      requires Valid()
      requires prefix in subs ==> pipe in subs[prefix]
      modifies Repr
      ensures Valid() && Repr == old(Repr)
      ensures subs == Without(old(subs), prefix, pipe)
      ensures r <==> if prefix in old(subs) then prefix !in subs else IsNode(old(subs), prefix)
      decreases |prefix|, 1
    {
      if |prefix| == 0 {
        r := RmHere(pipe);
        return;
      }
      if Kid(w, prefix[0]).None? {
        NoNode(prefix);
        return false;
      }
      NodeBelow(prefix);
      Ready(prefix[0]);
      r := RmBelow(prefix, pipe);
      if Kid(w, prefix[0]).value.Redundant() { DropKid(prefix[0]); } else { Settled(prefix[0]); }
    }

    method RmHere(pipe: Pipe) returns (r: bool)
      requires Valid() && ([] in subs ==> pipe in subs[[]])
      modifies this`pipes, this`subs
      ensures Valid() && subs == Without(old(subs), [], pipe) && r == ([] !in subs)
    {
      assert SubsAt([]);
      if pipes.Some? {
        subs := Without(subs, [], pipe);
        pipes := Some(pipes.value - {pipe});
        if pipes.value == {} { pipes := None; }
      }
      OwnPipesChanged();
      return pipes.None?;
    }

    method RmBelow(prefix: Topic, pipe: Pipe) returns (r: bool)
      requires prefix != [] && Waiting(prefix[0]) && Ok(w)
      requires prefix in subs ==> pipe in subs[prefix]
      modifies Repr
      ensures Waiting(prefix[0]) && Ok(w) && Repr == old(Repr)
      ensures subs == Without(old(subs), prefix, pipe)
      ensures r <==> if prefix in old(subs) then prefix !in subs else IsNode(old(Kid(w, prefix[0]).value.subs), prefix[1..])
      decreases |prefix|, 0
    {
      var c := prefix[0];
      var k := Kid(w, c).value;
      KidSubs(c);
      WithoutBelow(subs, k.subs, prefix, pipe);
      r := k.RmTopic(prefix[1..], pipe);
      subs := Without(subs, prefix, pipe);
      AfterKid(c);
    }

    /** Without a child for its first byte, `t` is not a node. */
    lemma NoNode(t: Topic)
      requires Valid() && t != [] && Kid(w, t[0]).None?
      ensures !IsNode(subs, t) && t !in subs
    {
      assert SubsAt(t);
      forall k: Topic | t <= k ensures k !in subs { assert SubsAt(k); }
    }

    /** Being a node is decided in the child. */
    lemma NodeBelow(t: Topic)
      requires Valid() && t != [] && Kid(w, t[0]).Some?
      ensures Kid(w, t[0]).value in Repr && IsNode(subs, t) == IsNode(Kid(w, t[0]).value.subs, t[1..])
    {
      assert KidOk(t[0]);
      var k := Kid(w, t[0]).value;
      if IsNode(subs, t) {
        var x :| x in subs && t <= x;
        assert SubsAt(x);
        assert t[1..] <= x[1..];
      }
      if IsNode(k.subs, t[1..]) {
        var y;
        if t[1..] == [] { y := k.Inhabited(); } else { y :| y in k.subs && t[1..] <= y; }
        var x := [t[0]] + y;
        assert x[0] == t[0] && x[1..] == y;
        assert SubsAt(x);
        assert t <= x;
      }
    }

    /** The redundant child at `c` is deleted and the table compacted. */
    method DropKid(c: byte)
      requires Waiting(c) && Ok(w) && Kid(w, c).value.Redundant()
      modifies this`w
      ensures Valid() && Kid(w, c).None?
    {
      Kid(w, c).value.Barren();
      w := PruneMtrie(w, c);
      KidDropped(c);
    }

    /** The child at `c`, which held no subscription, is gone from the window. */
    twostate lemma KidDropped(c: int)
      requires old(Waiting(c)) && old(Kid(w, c).value.subs) == map[]
      requires pipes == old(pipes) && Repr == old(Repr) && subs == old(subs)
      requires unchanged(Repr - {this})
      requires Shape(w) && Kid(w, c).None? && SameBut(old(w), w, c)
      ensures Loose()
    {
      forall d ensures KidOk(d) { if d != c { assert old(KidOk(d)); } }
      forall a, b | a != b ensures Apart(a, b) { assert old(Apart(a, b)); }
      forall t ensures SubsAt(t) {
        assert old(SubsAt(t));
        if t != [] && t[0] != c { assert old(KidOk(t[0])); }
      }
    }

    /** Unsubscribes `pipe` from every topic below this node, whose own topic is `buff`, and
        calls back for each topic that lost its last subscriber. */
    method RmPipe(pipe: Pipe, buff: Topic) returns (calls: seq<Topic>)
      requires Valid()
      modifies Repr
      ensures Valid() && Repr == old(Repr)
      ensures subs == Unsubscribed(old(subs), pipe)
      ensures Reports(calls, buff, old(subs), pipe)
      decreases Repr, 5
    {
      calls := RmOwn(pipe, buff);
      ghost var hi := w.min + w.count;
      if w.count == 1 {
        calls := SweepOnly(pipe, buff, calls, old(subs));
      } else if w.count > 1 {
        calls := SweepAll(pipe, buff, calls, old(subs));
      }
      AllPassed(calls, buff, old(subs), pipe, hi);
    }

    /** The node's own topic. */
    method RmOwn(pipe: Pipe, buff: Topic) returns (calls: seq<Topic>)
      requires Valid()
      modifies this`pipes, this`subs
      ensures Valid() && Swept(subs, calls, buff, old(subs), pipe, w.min)
      ensures forall t: Topic :: t in old(subs) && t != [] ==> t[0] < w.min + w.count
    {
      calls := [];
      assert SubsAt([]);
      AllAbove();
      if pipes.Some? && pipe in pipes.value {
        pipes := Some(pipes.value - {pipe});
        if pipes.value == {} {
          calls := [buff];
          pipes := None;
        }
      }
      subs := Cut(subs, pipe, w.min);
      OwnCall(calls, buff, old(subs), pipe, w.min);
      OwnPipesChanged();
    }

    /** The single child. */
    method SweepOnly(pipe: Pipe, buff: Topic, done: seq<Topic>, ghost was: map<Topic, set<Pipe>>)
      returns (calls: seq<Topic>)
      requires Valid() && w.count == 1 && Swept(subs, done, buff, was, pipe, w.min)
      modifies Repr
      ensures Valid() && Repr == old(Repr) && Swept(subs, calls, buff, was, pipe, old(w.min) + 1)
      decreases Repr, 1
    {
      calls := SweepAt(w.min, pipe, buff, done, was);
      PruneOnly(w.min);
    }

    /** The slot at `c` in the course of a sweep. */
    method SweepAt(c: byte, pipe: Pipe, buff: Topic, done: seq<Topic>, ghost was: map<Topic, set<Pipe>>)
      returns (calls: seq<Topic>)
      requires Loose() && Kid(w, c).Some? && Swept(subs, done, buff, was, pipe, c)
      modifies Repr
      ensures Waiting(c) && Repr == old(Repr) && w == old(w) && Swept(subs, calls, buff, was, pipe, c + 1)
      decreases Repr, 0, 1
    {
      var more := SweepKid(c, pipe, buff);
      JoinCalls(done, more, buff, was, pipe, c);
      CutNext(was, pipe, c);
      calls := done + more;
    }

    /** The table of children. */
    method SweepAll(pipe: Pipe, buff: Topic, done: seq<Topic>, ghost was: map<Topic, set<Pipe>>)
      returns (calls: seq<Topic>)
      requires Valid() && w.count > 1 && Swept(subs, done, buff, was, pipe, w.min)
      modifies Repr
      ensures Valid() && Repr == old(Repr) && Swept(subs, calls, buff, was, pipe, old(w.min + w.count))
      decreases Repr, 4
    {
      var newMin, newMax;
      calls, newMin, newMax := SweepTable(pipe, buff, done, was);
      BoundsAll(w, newMin, newMax);
      Compact(newMin, newMax);
    }

    method Compact(newMin: int, newMax: int)
      requires Loose() && w.count > 1
      requires w.live > 0 ==>
        && w.min <= newMin <= newMax < w.min + w.count
        && w.table[newMin - w.min].Some? && w.table[newMax - w.min].Some?
        && forall k :: 0 <= k < w.count && w.table[k].Some? ==> newMin <= w.min + k <= newMax
      modifies this`w
      ensures Valid()
    {
      w := CompactSwept(w, newMin, newMax);
      SameChildren();
    }

    /** The loop over the table: each slot in use is swept and cleared if it became redundant, and
        the first and last slot that stay in use are noted. */
    method SweepTable(pipe: Pipe, buff: Topic, done: seq<Topic>, ghost was: map<Topic, set<Pipe>>)
      returns (calls: seq<Topic>, newMin: int, newMax: int)
      requires Loose() && w.count > 1 && Swept(subs, done, buff, was, pipe, w.min)
      modifies Repr
      ensures Loose() && Repr == old(Repr) && w.min == old(w.min) && w.count == old(w.count)
      ensures Swept(subs, calls, buff, was, pipe, w.min + w.count) && Bounds(w, w.count, newMin, newMax)
      decreases Repr, 3
    {
      calls := done;
      newMin := w.min + w.count - 1;
      newMax := w.min;
      var i := 0;
      while i != w.count
        invariant 0 <= i <= w.count && Loose() && Repr == old(Repr)
        invariant w.min == old(w.min) && w.count == old(w.count)
        invariant Swept(subs, calls, buff, was, pipe, w.min + i) && Bounds(w, i, newMin, newMax)
        decreases w.count - i
      {
        calls, newMin, newMax := SweepNext(i, pipe, buff, newMin, newMax, calls, was);
        i := i + 1;
      }
    }

    /** One round of the loop. */
    method SweepNext(i: nat, pipe: Pipe, buff: Topic, min0: int, max0: int, done: seq<Topic>, ghost was: map<Topic, set<Pipe>>)
      returns (calls: seq<Topic>, newMin: int, newMax: int)
      requires Loose() && w.count > 1 && i < w.count && Bounds(w, i, min0, max0)
      requires Swept(subs, done, buff, was, pipe, w.min + i)
      modifies Repr
      ensures Loose() && Repr == old(Repr) && w.min == old(w.min) && w.count == old(w.count)
      ensures Swept(subs, calls, buff, was, pipe, w.min + i + 1) && Bounds(w, i + 1, newMin, newMax)
      decreases Repr, 2
    {
      var c := w.min + i;
      var used;
      calls, used := SweepSlot(i, pipe, buff, done, was);
      BoundsNext(old(w), w, i, used, min0, max0);
      newMin := if used && c < min0 then c else min0;
      newMax := if used && c > max0 then c else max0;
    }

    /** One slot of the table; `used` tells whether a child is left in it. */
    method SweepSlot(i: nat, pipe: Pipe, buff: Topic, done: seq<Topic>, ghost was: map<Topic, set<Pipe>>)
      returns (calls: seq<Topic>, used: bool)
      requires Loose() && w.count > 1 && i < w.count && Swept(subs, done, buff, was, pipe, w.min + i)
      modifies Repr
      ensures Loose() && Repr == old(Repr) && w.min == old(w.min) && w.count == old(w.count)
      ensures Swept(subs, calls, buff, was, pipe, w.min + i + 1)
      ensures used <==> w.table[i].Some?
      ensures w.table == old(w.table) || w.table == old(w.table)[i := None]
      decreases Repr, 1
    {
      var c := w.min + i;
      calls, used := done, false;
      if w.table[i].None? {
        NothingAt(was, pipe, c);
        SkipSlot(calls, buff, was, pipe, c);
      } else {
        calls := SweepAt(c, pipe, buff, done, was);
        used := PruneSwept(c);
      }
    }

    /** The child at `c` of a table stays, or is cleared if the sweep made it redundant. */
    method PruneSwept(c: byte) returns (used: bool)
      requires Waiting(c) && w.count > 1
      modifies this`w
      ensures Loose() && w.min == old(w.min) && w.count == old(w.count)
      ensures used <==> Kid(w, c).Some?
      ensures w.table == if used then old(w.table) else old(w.table)[c - w.min := None]
    {
      used := !Kid(w, c).value.Redundant();
      if used {
        Settled(c);
      } else {
        Kid(w, c).value.Barren();
        w := ClearSwept(w, c);
        KidDropped(c);
      }
    }

    /** The only child stays, or is dropped if it became redundant. */
    method PruneOnly(c: byte)
      requires Waiting(c) && Ok(w) && w.count == 1
      modifies this`w
      ensures Valid()
    {
      if Kid(w, c).value.Redundant() {
        Kid(w, c).value.Barren();
        w := ClearSingle(w, c);
        KidDropped(c);
      } else {
        Settled(c);
      }
    }

    /** Nothing is subscribed below a slot without a child. */
    lemma NothingAt(was: map<Topic, set<Pipe>>, p: Pipe, c: int)
      requires Loose() && subs == Cut(was, p, c) && Kid(w, c).None?
      ensures forall t: Topic :: t != [] && t[0] == c ==> t !in was
    {
      forall t: Topic | t != [] && t[0] == c ensures t !in was { assert SubsAt(t); }
    }

    /** The window was compacted around the same children. */
    twostate lemma SameChildren()
      requires old(Loose()) && pipes == old(pipes) && Repr == old(Repr) && subs == old(subs)
      requires unchanged(Repr - {this})
      requires Ok(w) && SameKids(old(w), w)
      ensures Valid()
    {
      forall d ensures KidOk(d) { assert old(KidOk(d)); }
      forall a, b | a != b ensures Apart(a, b) { assert old(Apart(a, b)); }
      forall t ensures SubsAt(t) {
        assert old(SubsAt(t));
        if t != [] { assert old(KidOk(t[0])); }
      }
    }

    /** No topic below this node starts with a byte under the window. */
    lemma AllAbove()
      requires Loose()
      ensures forall t: Topic :: t in subs && t != [] ==> w.min <= t[0] < w.min + w.count
    {
      forall t: Topic | t in subs && t != [] ensures w.min <= t[0] < w.min + w.count { assert SubsAt(t); }
    }

    lemma LooseReady(c: int)
      requires Loose() && Kid(w, c).Some?
      ensures Waiting(c)
    {
      assert KidOk(c);
    }

    /** The child at `c` unsubscribes the pipe from its topics. */
    method SweepKid(c: byte, pipe: Pipe, buff: Topic) returns (calls: seq<Topic>)
      requires Loose() && Kid(w, c).Some?
      modifies Repr
      ensures Waiting(c) && Repr == old(Repr) && w == old(w) && pipes == old(pipes)
      ensures subs == CutAt(old(subs), pipe, c)
      ensures ReportsAt(calls, buff, old(subs), pipe, c)
      decreases Repr, 0, 0
    {
      LooseReady(c);
      var k := Kid(w, c).value;
      KidSubs(c);
      CutBelow(subs, k.subs, pipe, c);
      calls := k.RmPipe(pipe, buff + [c]);
      subs := CutAt(subs, pipe, c);
      AfterKid(c);
      CallsBelow(calls, buff, old(subs), old(k.subs), pipe, c);
    }

    /** Signals the pipes subscribed to some prefix of `data`. */
    method Match(data: Topic) returns (marks: seq<Pipe>)
      requires Valid()
      ensures forall p :: p in marks <==> Matches(subs, data, p)
    {
      var current := this;
      var n := 0;
      marks := [];
      assert data[..0] == [];
      assert forall t: Topic :: [] + t == t;
      while true
        invariant n <= |data| && current.Valid() && current.Under(this, data[..n])
        invariant forall p :: p in marks <==> MatchesBelow(subs, data, n, p)
        decreases |data| - n
      {
        var here := current.Here(this, data, n);
        MatchesNext(subs, data, n, marks, here);
        marks := marks + here;
        if n == |data| { break; }
        if Kid(current.w, data[n]).None? {
          current.NothingPast(this, data, n);
          break;
        }
        current.Descend(this, data, n);
        current := Kid(current.w, data[n]).value;
        n := n + 1;
      }
      forall p ensures MatchesBelow(subs, data, n + 1, p) <==> Matches(subs, data, p) { MatchesAll(subs, data, n, p); }
    }

    /** The pipes of the node that the first `n` bytes lead to. */
    method Here(root: Node, data: Topic, n: nat) returns (here: seq<Pipe>)
      requires Valid() && n <= |data| && Under(root, data[..n])
      ensures forall p :: p in here <==> p in Get(root.subs, data[..n])
    {
      assert data[..n] + [] == data[..n];
      assert SubsAt([]);
      if pipes.None? { return []; }
      here := Signal(pipes.value);
    }

    /** This node is where `path` leads to from `root`. */
    ghost predicate Under(root: Node, path: Topic)
      reads this, root
    {
      forall t: Topic :: (t in subs <==> path + t in root.subs) && (t in subs ==> subs[t] == root.subs[path + t])
    }

    lemma Descend(root: Node, data: Topic, n: nat)
      requires Valid() && n < |data| && Under(root, data[..n]) && Kid(w, data[n]).Some?
      ensures KidOk(data[n]) && Kid(w, data[n]).value.Under(root, data[..n + 1])
    {
      assert KidOk(data[n]);
      var k := Kid(w, data[n]).value;
      forall t: Topic
        ensures t in k.subs <==> data[..n + 1] + t in root.subs
        ensures t in k.subs ==> k.subs[t] == root.subs[data[..n + 1] + t]
      {
        var u := [data[n]] + t;
        assert u[0] == data[n] && u[1..] == t;
        assert SubsAt(u);
        assert data[..n] + u == data[..n + 1] + t;
      }
    }

    lemma NothingPast(root: Node, data: Topic, n: nat)
      requires Valid() && n < |data| && Under(root, data[..n]) && Kid(w, data[n]).None?
      ensures forall i :: n < i <= |data| ==> data[..i] !in root.subs
    {
      forall i | n < i <= |data| ensures data[..i] !in root.subs {
        assert SubsAt(data[n..i]);
        assert data[..n] + data[n..i] == data[..i];
      }
    }
  }

  // ----- Removal of a pipe everywhere --------------------------------------------------

  /** The subscriptions without `p`. */
  function Unsubscribed(subs: map<Topic, set<Pipe>>, p: Pipe): map<Topic, set<Pipe>> {
    map t | t in subs && subs[t] - {p} != {} :: subs[t] - {p}
  }

  /** The sweep has passed topic `t`: the node's own, or one below a slot under `hi`. */
  predicate Passed(t: Topic, hi: int) { t == [] || t[0] < hi }

  /** The subscriptions when the sweep has got to slot `hi`. */
  function Cut(subs: map<Topic, set<Pipe>>, p: Pipe, hi: int): map<Topic, set<Pipe>> {
    map t | t in subs && (Passed(t, hi) ==> subs[t] - {p} != {}) :: if Passed(t, hi) then subs[t] - {p} else subs[t]
  }

  /** One slot of the sweep. */
  function CutAt(subs: map<Topic, set<Pipe>>, p: Pipe, c: int): map<Topic, set<Pipe>> {
    map t | t in subs && (t != [] && t[0] == c ==> subs[t] - {p} != {}) ::
      if t != [] && t[0] == c then subs[t] - {p} else subs[t]
  }

  lemma CutBelow(subs: map<Topic, set<Pipe>>, kid: map<Topic, set<Pipe>>, p: Pipe, c: byte)
    requires Below(subs, c, kid)
    ensures Below(CutAt(subs, p, c), c, Unsubscribed(kid, p))
  {}

  lemma CutNext(subs: map<Topic, set<Pipe>>, p: Pipe, c: int)
    ensures CutAt(Cut(subs, p, c), p, c) == Cut(subs, p, c + 1)
  {}

  /** Topic `x` is `buff` followed by one that `p` alone subscribed to. */
  predicate LastOf(x: Topic, buff: Topic, subs: map<Topic, set<Pipe>>, p: Pipe) {
    buff <= x && x[|buff|..] in subs && subs[x[|buff|..]] == {p}
  }

  /** The callbacks of a removal: in order, once each, for exactly the topics that `p` alone
      subscribed to. */
  ghost predicate Reports(calls: seq<Topic>, buff: Topic, subs: map<Topic, set<Pipe>>, p: Pipe) {
    && Increasing(calls)
    && forall x :: x in calls <==> LastOf(x, buff, subs, p)
  }

  /** ... for the part of the sweep below slot `hi` ... */
  ghost predicate ReportsTo(calls: seq<Topic>, buff: Topic, subs: map<Topic, set<Pipe>>, p: Pipe, hi: int) {
    && Increasing(calls)
    && forall x :: x in calls <==> LastOf(x, buff, subs, p) && Passed(x[|buff|..], hi)
  }

  /** A sweep has got to slot `hi`: subscriptions and callbacks. */
  ghost predicate Swept(subs: map<Topic, set<Pipe>>, calls: seq<Topic>, buff: Topic, was: map<Topic, set<Pipe>>, p: Pipe, hi: int) {
    subs == Cut(was, p, hi) && ReportsTo(calls, buff, was, p, hi)
  }

  /** ... and for slot `c`. */
  ghost predicate ReportsAt(calls: seq<Topic>, buff: Topic, subs: map<Topic, set<Pipe>>, p: Pipe, c: int) {
    && Increasing(calls)
    && forall x :: x in calls <==> LastOf(x, buff, subs, p) && |x| > |buff| && x[|buff|] == c
  }

  /** The node's own callback. */
  lemma OwnCall(calls: seq<Topic>, buff: Topic, subs: map<Topic, set<Pipe>>, p: Pipe, lo: int)
    requires calls == if [] in subs && subs[[]] == {p} then [buff] else []
    requires forall t: Topic :: t in subs && t != [] ==> lo <= t[0]
    ensures ReportsTo(calls, buff, subs, p, lo)
  {
    assert buff[|buff|..] == [];
    forall x | LastOf(x, buff, subs, p) && Passed(x[|buff|..], lo) ensures x == buff {
      assert x == buff + x[|buff|..];
    }
  }

  /** The callbacks made below the child at `c`. */
  lemma CallsBelow(calls: seq<Topic>, buff: Topic, subs: map<Topic, set<Pipe>>, below: map<Topic, set<Pipe>>, p: Pipe, c: byte)
    requires Below(subs, c, below) && Reports(calls, buff + [c], below, p)
    ensures ReportsAt(calls, buff, subs, p, c)
  {
    forall x: Topic ensures LastOf(x, buff + [c], below, p) <==> LastOf(x, buff, subs, p) && |x| > |buff| && x[|buff|] == c {
      if |x| > |buff| {
        assert buff + [c] <= x <==> buff <= x && x[|buff|] == c;
        assert x[|buff|..][1..] == x[|buff| + 1..];
        assert x[|buff|..] != [] && x[|buff|..][0] == x[|buff|];
      }
    }
  }

  /** Callbacks below slot `c` follow those below smaller slots. */
  lemma JoinCalls(calls: seq<Topic>, more: seq<Topic>, buff: Topic, was: map<Topic, set<Pipe>>, p: Pipe, c: int)
    requires ReportsTo(calls, buff, was, p, c) && ReportsAt(more, buff, Cut(was, p, c), p, c)
    ensures ReportsTo(calls + more, buff, was, p, c + 1)
  {
    forall x: Topic, y: Topic | x in calls && y in more ensures Less(x, y) {
      assert LastOf(x, buff, was, p) && LastOf(y, buff, Cut(was, p, c), p);
      if |x| > |buff| { assert x[|buff|..][0] == x[|buff|]; }
      LessAfter(buff, x, y);
    }
    forall x: Topic
      ensures x in calls + more <==> LastOf(x, buff, was, p) && Passed(x[|buff|..], c + 1)
    {
      if |x| > |buff| { assert x[|buff|..][0] == x[|buff|]; }
    }
  }

  lemma SkipSlot(calls: seq<Topic>, buff: Topic, was: map<Topic, set<Pipe>>, p: Pipe, c: int)
    requires ReportsTo(calls, buff, was, p, c)
    requires forall t: Topic :: t != [] && t[0] == c ==> t !in was
    ensures ReportsTo(calls, buff, was, p, c + 1) && Cut(was, p, c) == Cut(was, p, c + 1)
  {
    assert forall t: Topic :: t in was ==> Passed(t, c) == Passed(t, c + 1);
  }

  /** Past the last slot the sweep is complete. */
  lemma AllPassed(calls: seq<Topic>, buff: Topic, was: map<Topic, set<Pipe>>, p: Pipe, hi: int)
    requires forall t: Topic :: t in was && t != [] ==> t[0] < hi
    requires ReportsTo(calls, buff, was, p, hi)
    ensures Cut(was, p, hi) == Unsubscribed(was, p) && Reports(calls, buff, was, p)
  {
    assert forall t: Topic :: t in was ==> Passed(t, hi);
  }
}
