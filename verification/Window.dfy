/** The child table shared by the two tries: a window of `count` slots starting at
    byte `min`, kept as a single pointer when it has one slot, and trimmed so that
    its first and last slots are in use. */
module Window {
  import opened Basics

  datatype Win<T> = Win(min: int, count: nat, live: nat, node: Option<T>, table: seq<Option<T>>)

  function Empty<T>(): Win<T> { Win(0, 0, 0, None, []) }

  predicate Covers<T>(w: Win<T>, c: int) { w.min <= c < w.min + w.count }

  /** The child for byte `c`, if any. */
  function Kid<T>(w: Win<T>, c: int): Option<T> {
    if !Covers(w, c) then None
    else if w.count == 1 then w.node
    else if |w.table| == w.count then w.table[c - w.min]
    else None
  }

  ghost function Live<T>(w: Win<T>): set<int> { set c | 0 <= c < 256 && Kid(w, c).Some? }

  /** The window is well placed and its counter is right; its ends may be unused. */
  ghost predicate Shape<T>(w: Win<T>) {
    && 0 <= w.min < 256 && w.min + w.count <= 256
    && (w.count > 1 ==> |w.table| == w.count)
    && w.live == |Live(w)|
  }

  /** ... and both ends are in use. */
  ghost predicate Ok<T>(w: Win<T>) {
    && Shape(w)
    && (w.count == 1 ==> w.node.Some?)
    && (w.count > 1 ==> w.table[0].Some? && w.table[w.count - 1].Some?)
  }

  ghost predicate SameKids<T>(v: Win<T>, w: Win<T>) { forall d :: Kid(w, d) == Kid(v, d) }

  ghost predicate SameBut<T>(v: Win<T>, w: Win<T>, c: int) { forall d :: d != c ==> Kid(w, d) == Kid(v, d) }

  lemma LiveGrows<T>(v: Win<T>, w: Win<T>, c: int)
    requires 0 <= c < 256 && SameBut(v, w, c) && Kid(v, c).None? && Kid(w, c).Some?
    ensures Live(w) == Live(v) + {c} && |Live(w)| == |Live(v)| + 1
  {
    assert Live(w) == Live(v) + {c};
  }

  lemma LiveShrinks<T>(v: Win<T>, w: Win<T>, c: int)
    requires 0 <= c < 256 && SameBut(v, w, c) && Kid(v, c).Some? && Kid(w, c).None?
    ensures |Live(w)| == |Live(v)| - 1
  {
    assert Live(v) == Live(w) + {c};
  }

  lemma LiveSame<T>(v: Win<T>, w: Win<T>)
    requires SameKids(v, w)
    ensures |Live(w)| == |Live(v)|
  {
    assert Live(w) == Live(v);
  }

  /** A window with two ends in use has at least two children. */
  lemma TwoLive<T>(w: Win<T>)
    requires Ok(w)
    ensures w.count > 1 ==> w.live > 1
    ensures w.count == 1 ==> w.live == 1
    ensures w.count == 0 ==> w.live == 0
  {
    if w.count > 1 {
      var a, b := w.min, w.min + w.count - 1;
      assert {a, b} <= Live(w);
      Subset({a, b}, Live(w));
    } else if w.count == 1 {
      assert Live(w) == {w.min};
    } else {
      assert Live(w) == {};
    }
  }

  lemma Subset(a: set<int>, b: set<int>)
    requires a <= b
    ensures |a| <= |b|
  {
    assert b == a + (b - a);
  }

  function Nulls<T>(n: nat): seq<Option<T>> { seq(n, _ => None) }

  /** The window is extended to cover `c`: first slot, single node, to the right or to the left. */
  method Extend<T>(w: Win<T>, c: byte) returns (v: Win<T>)
    requires Ok(w) && !Covers(w, c)
    ensures Covers(v, c) && SameKids(w, v) && Shape(v)
    ensures v.count > 1 ==> forall k :: (k == 0 || k == v.count - 1) ==> v.table[k].Some? || v.min + k == c
  {
    if w.count == 0 {
      v := w.(min := c, count := 1, node := None);
    } else if w.count == 1 {
      var oldc, oldp := w.min, w.node;
      var count := (if w.min < c then c - w.min else w.min - c) + 1;
      var table := Nulls<T>(count);
      var min := if w.min < c then w.min else c;
      v := Win(min, count, w.live, None, table[oldc - min := oldp]);
    } else if w.min < c {
      var count := c - w.min + 1;
      v := w.(count := count, table := w.table + Nulls<T>(count - w.count));
    } else {
      var count := (w.min + w.count) - c;
      v := w.(count := count, table := Nulls<T>(w.min - c) + w.table, min := c);
    }
    LiveSame(w, v);
  }

  /** A new child at an unused byte that the window covers. */
  method Fill<T>(u: Win<T>, c: byte, x: T) returns (v: Win<T>)
    requires Shape(u) && Covers(u, c) && Kid(u, c).None?
    requires u.count > 1 ==> forall k :: (k == 0 || k == u.count - 1) ==> u.table[k].Some? || u.min + k == c
    ensures Ok(v) && Kid(v, c) == Some(x) && SameBut(u, v, c)
  {
    if u.count == 1 {
      v := u.(node := Some(x), live := u.live + 1);
    } else {
      v := u.(table := u.table[c - u.min := Some(x)], live := u.live + 1);
    }
    LiveGrows(u, v, c);
  }

  /** A new child at an unused byte. */
  method Insert<T>(w: Win<T>, c: byte, x: T) returns (v: Win<T>)
    requires Ok(w) && Kid(w, c).None?
    ensures Ok(v) && Kid(v, c) == Some(x) && SameBut(w, v, c)
  {
    var u := w;
    if c < w.min || c >= w.min + w.count { u := Extend(w, c); }
    v := Fill(u, c, x);
  }

  /** With one child left, the used slot is the only one. */
  lemma OnlyOne<T>(u: Win<T>, i: nat)
    requires Shape(u) && u.count > 1 && u.live == 1 && i < u.count && u.table[i].Some?
    ensures forall k :: 0 <= k < u.count && k != i ==> u.table[k].None?
  {
    assert u.min + i in Live(u);
    forall k | 0 <= k < u.count && k != i ensures u.table[k].None? {
      if u.table[k].Some? {
        assert u.min + k in Live(u);
        Subset({u.min + i, u.min + k}, Live(u));
      }
    }
  }

  lemma AtMostOne<T>(u: Win<T>, j: nat)
    requires Shape(u) && u.count > 1 && j < u.count
    ensures (forall k :: 0 <= k < u.count && k != j ==> u.table[k].None?) ==> u.live <= 1
  {
    if forall k :: 0 <= k < u.count && k != j ==> u.table[k].None? {
      Subset(Live(u), {u.min + j});
    }
  }

  lemma SomeUsed<T>(u: Win<T>)
    requires Shape(u) && u.count > 1 && u.live > 0
    ensures exists k :: 0 <= k < u.count && u.table[k].Some?
  {
    var c :| c in Live(u);
    assert u.table[c - u.min].Some?;
  }

  /** The table holds one child: switch to the single-node form. */
  method ToSingle<T>(u: Win<T>) returns (v: Win<T>)
    requires Shape(u) && u.count > 1 && u.live == 1
    ensures Ok(v) && SameKids(u, v) && v.count == 1
  {
    SomeUsed(u);
    var i := 0;
    while u.table[i].None?
      invariant 0 <= i < u.count
      invariant exists k :: i <= k < u.count && u.table[k].Some?
      decreases u.count - i
    {
      i := i + 1;
    }
    OnlyOne(u, i);
    v := Win(u.min + i, 1, u.live, u.table[i], []);
    LiveSame(u, v);
  }

  /** Slot 0 was just cleared: cut the unused slots on the left. */
  method TrimLeft<T>(u: Win<T>) returns (v: Win<T>)
    requires Shape(u) && u.count > 1 && u.live > 1 && u.table[0].None? && u.table[u.count - 1].Some?
    ensures Ok(v) && SameKids(u, v)
  {
    var i := 1;
    while u.table[i].None?
      invariant 1 <= i < u.count
      invariant forall k :: 0 <= k < i ==> u.table[k].None?
      decreases u.count - i
    {
      i := i + 1;
    }
    v := u.(min := u.min + i, count := u.count - i, table := u.table[i..]);
    AtMostOne(u, i);
    LiveSame(u, v);
  }

  /** The last slot was just cleared: cut the unused slots on the right. */
  method TrimRight<T>(u: Win<T>) returns (v: Win<T>)
    requires Shape(u) && u.count > 1 && u.live > 1 && u.table[0].Some? && u.table[u.count - 1].None?
    ensures Ok(v) && SameKids(u, v)
  {
    var i := 1;
    while u.table[u.count - 1 - i].None?
      invariant 1 <= i < u.count
      invariant forall k :: u.count - i <= k < u.count ==> u.table[k].None?
      decreases u.count - i
    {
      i := i + 1;
    }
    AtMostOne(u, 0);
    v := u.(count := u.count - i, table := u.table[..u.count - i]);
    LiveSame(u, v);
  }

  /** Clearing the slot of one of at least two children. */
  method Clear<T>(w: Win<T>, c: byte) returns (u: Win<T>)
    requires Ok(w) && w.count > 1 && Kid(w, c).Some?
    ensures Shape(u) && w.live == u.live + 1 && u == w.(table := w.table[c - w.min := None], live := u.live)
    ensures Kid(u, c).None? && SameBut(w, u, c) && u.live > 0
  {
    TwoLive(w);
    u := w.(table := w.table[c - w.min := None], live := w.live - 1);
    LiveShrinks(w, u, c);
  }

  /** The only child goes: the node has no children left. */
  method ClearSingle<T>(w: Win<T>, c: byte) returns (v: Win<T>)
    requires Ok(w) && w.count == 1 && Kid(w, c).Some?
    ensures Ok(v) && Kid(v, c).None? && SameBut(w, v, c) && v.live == 0
  {
    TwoLive(w);
    v := w.(node := None, count := 0, live := w.live - 1);
    LiveShrinks(w, v, c);
  }

  /** mtrie_t::rm_helper: the child at `c` is dropped and the table compacted. */
  method PruneMtrie<T>(w: Win<T>, c: byte) returns (v: Win<T>)
    requires Ok(w) && Kid(w, c).Some?
    ensures Ok(v) && Kid(v, c).None? && SameBut(w, v, c)
  {
    if w.count == 1 {
      v := ClearSingle(w, c);
      return;
    }
    var u := Clear(w, c);
    if u.live == 1 {
      v := ToSingle(u);
    } else if c == u.min {
      v := TrimLeft(u);
    } else if c == u.min + u.count - 1 {
      v := TrimRight(u);
    } else {
      v := u;
    }
  }

  /** trie_t::rm: as above, but with one child left the survivor is taken from the
      end of the table opposite to the pruned one. */
  method PruneTrie<T>(w: Win<T>, c: byte) returns (v: Win<T>)
    requires Ok(w) && Kid(w, c).Some?
    ensures Ok(v) && Kid(v, c).None? && SameBut(w, v, c)
  {
    if w.count == 1 {
      v := ClearSingle(w, c);
      return;
    }
    var u := Clear(w, c);
    if u.live == 1 {
      v := KeepOtherEnd(w, c, u);
    } else if c == u.min {
      v := TrimLeft(u);
    } else if c == u.min + u.count - 1 {
      v := TrimRight(u);
    } else {
      v := u;
    }
  }

  /** Of two children, both at the ends of the table, the one at `c` was cleared. */
  method KeepOtherEnd<T>(w: Win<T>, c: byte, u: Win<T>) returns (v: Win<T>)
    requires Ok(w) && w.count > 1 && Kid(w, c).Some? && Shape(u) && u.live == 1
    requires u == w.(table := w.table[c - w.min := None], live := u.live)
    ensures Ok(v) && SameKids(u, v)
  {
    var node: Option<T> := None;
    var min := u.min;
    if c == u.min {
      node := u.table[u.count - 1];
      min := u.min + u.count - 1;
      OnlyOne(u, u.count - 1);
    } else {
      OnlyOne(u, 0);
      assert u.table[u.count - 1].None?;
      assert c == u.min + u.count - 1;
      node := u.table[0];
    }
    assert node.Some?;
    v := Win(min, 1, u.live, node, []);
    LiveSame(u, v);
  }

  /** mtrie_t::rm_helper(pipe): after a sweep that cleared slots anywhere, shrink the table
      to the range [newMin, newMax] of the slots still in use. */
  method CompactSwept<T>(u: Win<T>, newMin: int, newMax: int) returns (v: Win<T>)
    requires Shape(u) && u.count > 1
    requires u.live > 0 ==>
      && u.min <= newMin <= newMax < u.min + u.count
      && u.table[newMin - u.min].Some? && u.table[newMax - u.min].Some?
      && forall k :: 0 <= k < u.count && u.table[k].Some? ==> newMin <= u.min + k <= newMax
    ensures Ok(v) && SameKids(u, v)
  {
    if u.live == 0 {
      v := u.(table := [], count := 0);
      NoneUsed(u);
      LiveSame(u, v);
    } else if u.live == 1 {
      OnlyOne(u, newMin - u.min);
      assert newMin == newMax;
      v := Win(newMin, 1, u.live, u.table[newMin - u.min], []);
      LiveSame(u, v);
    } else if newMin > u.min || newMax < u.min + u.count - 1 {
      AtMostOne(u, newMin - u.min);
      assert newMax - newMin + 1 > 1;
      v := u.(min := newMin, count := newMax - newMin + 1, table := u.table[newMin - u.min..newMax - u.min + 1]);
      LiveSame(u, v);
    } else {
      v := u;
    }
  }

  lemma NoneUsed<T>(u: Win<T>)
    requires Shape(u) && u.count > 1 && u.live == 0
    ensures forall d :: Kid(u, d).None?
  {
    assert forall d :: Kid(u, d).Some? ==> d in Live(u);
  }

  /** A child of a table is cleared in the middle of a sweep. */
  method ClearSwept<T>(u: Win<T>, c: byte) returns (v: Win<T>)
    requires Shape(u) && u.count > 1 && Kid(u, c).Some?
    ensures Shape(v) && Kid(v, c).None? && SameBut(u, v, c)
    ensures v.min == u.min && v.count == u.count && v.table == u.table[c - u.min := None]
  {
    assert c in Live(u);
    v := u.(table := u.table[c - u.min := None], live := u.live - 1);
    LiveShrinks(u, v, c);
  }

  /** Of the first `n` slots, those in use lie between `newMin` and `newMax`, which are in use
      themselves, or the two still have their starting values. */
  ghost predicate Bounds<T>(u: Win<T>, n: nat, newMin: int, newMax: int) {
    && n <= u.count == |u.table|
    && (forall k :: 0 <= k < n && u.table[k].Some? ==> newMin <= u.min + k <= newMax)
    && ((newMin == u.min + u.count - 1 && newMax == u.min && forall k :: 0 <= k < n && k < u.count - 1 ==> u.table[k].None?)
        || (u.min <= newMin <= newMax < u.min + n && u.table[newMin - u.min].Some? && u.table[newMax - u.min].Some?))
  }

  /** Slot `i` is looked at, after it may have been cleared. */
  lemma BoundsNext<T>(v: Win<T>, u: Win<T>, i: nat, used: bool, newMin: int, newMax: int)
    requires i < v.count && Bounds(v, i, newMin, newMax)
    requires u.min == v.min && u.count == v.count && (u.table == v.table || u.table == v.table[i := None])
    requires used <==> u.table[i].Some?
    ensures var c := u.min + i;
      Bounds(u, i + 1, if used && c < newMin then c else newMin, if used && c > newMax then c else newMax)
  {}

  /** After the last slot the bounds are those of the slots in use. */
  lemma BoundsAll<T>(u: Win<T>, newMin: int, newMax: int)
    requires Shape(u) && u.count > 1 && Bounds(u, u.count, newMin, newMax)
    ensures u.live > 0 ==>
      && u.min <= newMin <= newMax < u.min + u.count
      && u.table[newMin - u.min].Some? && u.table[newMax - u.min].Some?
      && forall k :: 0 <= k < u.count && u.table[k].Some? ==> newMin <= u.min + k <= newMax
  {
    if u.live > 0 { SomeUsed(u); }
  }
}
