/** msg_t: message handles, some of which share a counted content, and the distribution of a message
    to several pipes. The handles of the user and those stored in pipes are numbered alike. */
module Messages {
  import opened Basics

  type Id = nat

  const MAX_VSM_SIZE := 29

  datatype Handle =
    | Closed
    | Vsm(data: seq<byte>)
    | Lmsg(content: Id, shared: bool)
    | Delimiter
    | Cmsg(bytes: seq<byte>)

  datatype Content = Content(data: seq<byte>, refcnt: int)

  /** All handles, the contents in use, and those freed so far. */
  datatype Mem = Mem(handles: map<Id, Handle>, contents: map<Id, Content>, freed: seq<Id>, next: Id)

  /** The handles that refer to a content. */
  ghost function Users(handles: map<Id, Handle>, c: Id): set<Id> {
    set h | h in handles && handles[h].Lmsg? && handles[h].content == c
  }

  /** Every content ever allocated is either in use, or was freed, once. */
  ghost predicate Allocated(m: Mem) {
    && (forall i, j :: 0 <= i < j < |m.freed| ==> m.freed[i] != m.freed[j])
    && (forall c: Id :: c in m.freed ==> c < m.next && c !in m.contents)
    && (forall c: Id :: c in m.contents ==> c < m.next)
    && (forall c: Id :: c < m.next ==> c in m.freed || c in m.contents)
  }

  /** A content in use has a single handle, which does not claim to share it, or handles that all
      share it and, up to `extra` reserved references, as many as it counts. */
  ghost predicate Counted(m: Mem, c: Id, extra: int) {
    var us := Users(m.handles, c);
    if c in m.contents then
      && us != {}
      && ((extra == 0 && exists h :: us == {h} && !m.handles[h].shared)
          || ((forall h :: h in us ==> m.handles[h].shared) && m.contents[c].refcnt == |us| + extra))
    else us == {}
  }

  /** Counters are right, but for `extra` references reserved on content `at`. */
  ghost predicate Reserved(m: Mem, at: Id, extra: int) {
    Allocated(m) && Counted(m, at, extra) && forall c: Id :: c != at ==> Counted(m, c, 0)
  }

  ghost predicate Sound(m: Mem) { Allocated(m) && forall c: Id :: Counted(m, c, 0) }

  /** The bytes of a message. */
  ghost function Data(m: Mem, h: Id): seq<byte> {
    if h !in m.handles then []
    else match m.handles[h]
      case Vsm(data) => data
      case Cmsg(bytes) => bytes
      case Lmsg(c, _) => if c in m.contents then m.contents[c].data else []
      case _ => []
  }

  /** A handle that owns nothing. */
  predicate Owns(m: Mem, h: Id) { h in m.handles && m.handles[h].Lmsg? }

  /** What soundness means to a user: no handle dangles, no content in use is without a handle, each
      content is in use or was freed once, one that is not shared has a single handle, and the counter
      of a shared one is the number of its handles. */
  lemma SoundMeans(m: Mem)
    requires Sound(m)
    ensures forall h: Id :: Owns(m, h) ==> m.handles[h].content in m.contents
    ensures forall c: Id :: c in m.contents ==> Users(m.handles, c) != {}
    ensures forall c: Id :: c < m.next ==> (c in m.contents <==> c !in m.freed)
    ensures forall h: Id :: Owns(m, h) ==>
      var us := Users(m.handles, m.handles[h].content);
      if m.handles[h].shared then m.contents[m.handles[h].content].refcnt == |us| else us == {h}
  {
    forall h: Id | Owns(m, h)
      ensures m.handles[h].content in m.contents
      ensures var us := Users(m.handles, m.handles[h].content);
        if m.handles[h].shared then m.contents[m.handles[h].content].refcnt == |us| else us == {h}
    {
      assert Counted(m, m.handles[h].content, 0) && h in Users(m.handles, m.handles[h].content);
    }
    forall c: Id | c in m.contents ensures Users(m.handles, c) != {} { assert Counted(m, c, 0); }
  }

  // ----- Users of a content -------------------------------------------------------------------

  lemma Joins(hs: map<Id, Handle>, h: Id, x: Handle)
    requires x.Lmsg? && h !in Users(hs, x.content)
    ensures Users(hs[h := x], x.content) == Users(hs, x.content) + {h}
    ensures |Users(hs[h := x], x.content)| == |Users(hs, x.content)| + 1
  {
    assert Users(hs[h := x], x.content) == Users(hs, x.content) + {h};
  }

  lemma Leaves(hs: map<Id, Handle>, h: Id, x: Handle, c: Id)
    requires h in Users(hs, c) && (x.Lmsg? ==> x.content != c)
    ensures Users(hs[h := x], c) == Users(hs, c) - {h}
    ensures |Users(hs[h := x], c)| == |Users(hs, c)| - 1
  {
    assert Users(hs[h := x], c) == Users(hs, c) - {h};
  }

  lemma Stays(hs: map<Id, Handle>, h: Id, x: Handle, c: Id)
    requires (h in Users(hs, c)) == (x.Lmsg? && x.content == c)
    ensures Users(hs[h := x], c) == Users(hs, c)
  {}

  /** Contents that an operation on handle `h` has nothing to do with. */
  lemma Others(m: Mem, n: Mem, h: Id, x: Handle, c: Id, extra: int)
    requires Counted(m, c, extra) && n.handles == m.handles[h := x]
    requires (Owns(m, h) ==> m.handles[h].content != c) && (x.Lmsg? ==> x.content != c)
    requires c in m.contents <==> c in n.contents
    requires c in m.contents ==> n.contents[c] == m.contents[c]
    ensures Counted(n, c, extra)
  {
    Stays(m.handles, h, x, c);
  }

  // ----- Single operations --------------------------------------------------------------------

  /** A handle that owns nothing is overwritten by another such. */
  lemma PutOk(m: Mem, h: Id, x: Handle)
    requires Sound(m) && !Owns(m, h) && !x.Lmsg?
    ensures Sound(m.(handles := m.handles[h := x]))
  {
    var n := m.(handles := m.handles[h := x]);
    forall c: Id ensures Counted(n, c, 0) { Others(m, n, h, x, c, 0); }
  }

  /** A new content with one handle. */
  function Allocate(m: Mem, h: Id, data: seq<byte>): Mem {
    Mem(m.handles[h := Lmsg(m.next, false)], m.contents[m.next := Content(data, 0)], m.freed, m.next + 1)
  }

  lemma AllocateOk(m: Mem, h: Id, data: seq<byte>)
    requires Sound(m) && !Owns(m, h)
    ensures Sound(Allocate(m, h, data))
  {
    var n, x := Allocate(m, h, data), Lmsg(m.next, false);
    forall c: Id ensures Counted(n, c, 0) {
      assert Counted(m, c, 0);
      if c == m.next { Joins(m.handles, h, x); } else { Others(m, n, h, x, c, 0); }
    }
  }

  /** One reference is dropped; the last one frees the content. */
  function Drop(m: Mem, h: Id, x: Handle): Mem
    requires Owns(m, h) && m.handles[h].content in m.contents
  {
    var c, k := m.handles[h].content, m.contents[m.handles[h].content];
    if !m.handles[h].shared || k.refcnt == 1 then
      Mem(m.handles[h := x], m.contents - {c}, m.freed + [c], m.next)
    else
      Mem(m.handles[h := x], m.contents[c := k.(refcnt := k.refcnt - 1)], m.freed, m.next)
  }

  lemma DropOk(m: Mem, h: Id, x: Handle)
    requires Sound(m) && Owns(m, h) && !x.Lmsg?
    ensures m.handles[h].content in m.contents && Sound(Drop(m, h, x))
    ensures Drop(m, h, x).freed == m.freed + if Users(m.handles, m.handles[h].content) == {h} then [m.handles[h].content] else []
    ensures forall g :: g != h ==> Data(Drop(m, h, x), g) == Data(m, g)
  {
    var at := m.handles[h].content;
    assert Counted(m, at, 0) && h in Users(m.handles, at);
    LastUser(m, h, at);
    Leaves(m.handles, h, x, at);
    var n := Drop(m, h, x);
    forall c: Id ensures Counted(n, c, 0) {
      assert Counted(m, c, 0);
      if c != at { Others(m, n, h, x, c, 0); }
    }
    forall g | g != h ensures Data(n, g) == Data(m, g) {
      if Owns(m, g) {
        assert Counted(m, m.handles[g].content, 0) && g in Users(m.handles, m.handles[g].content);
        assert Counted(n, m.handles[g].content, 0) && g in Users(n.handles, m.handles[g].content);
      }
    }
  }

  /** The counter, or the missing claim to share, tells whether a handle is the last one. */
  lemma LastUser(m: Mem, h: Id, c: Id)
    requires Counted(m, c, 0) && c in m.contents && h in Users(m.handles, c)
    ensures !m.handles[h].shared || m.contents[c].refcnt == 1 <==> Users(m.handles, c) == {h}
  {
    var us := Users(m.handles, c);
    assert us == {h} + (us - {h});
    assert us != {h} ==> us - {h} != {};
  }

  // ----- Shared references ----------------------------------------------------------------------

  /** `n` more references to the content of `h`, for handles yet to come. */
  function Share(m: Mem, h: Id, n: nat): Mem
    requires Owns(m, h)
  {
    var x := m.handles[h];
    var k := if x.content in m.contents then m.contents[x.content] else Content([], 0);
    m.(handles := m.handles[h := x.(shared := true)],
       contents := m.contents[x.content := k.(refcnt := if x.shared then k.refcnt + n else n + 1)])
  }

  lemma ShareOk(m: Mem, h: Id, n: nat)
    requires Sound(m) && Owns(m, h)
    ensures m.handles[h].content in m.contents && Reserved(Share(m, h, n), m.handles[h].content, n)
    ensures forall g :: Data(Share(m, h, n), g) == Data(m, g)
  {
    var at, x := m.handles[h].content, m.handles[h].(shared := true);
    assert Counted(m, at, 0) && h in Users(m.handles, at);
    var s := Share(m, h, n);
    Stays(m.handles, h, x, at);
    LastUser(m, h, at);
    forall c: Id | c != at ensures Counted(s, c, 0) {
      assert Counted(m, c, 0);
      Others(m, s, h, x, c, 0);
    }
  }

  /** A reserved reference becomes a handle. */
  lemma CopyOk(m: Mem, h: Id, d: Id, extra: int)
    requires Owns(m, h) && m.handles[h].shared && Reserved(m, m.handles[h].content, extra)
    requires !Owns(m, d)
    ensures var n := m.(handles := m.handles[d := m.handles[h]]);
      Reserved(n, m.handles[h].content, extra - 1) && Data(n, d) == Data(m, h)
  {
    var at, x := m.handles[h].content, m.handles[h];
    var n := m.(handles := m.handles[d := x]);
    assert h in Users(m.handles, at);
    Joins(m.handles, d, x);
    forall c: Id | c != at ensures Counted(n, c, 0) {
      assert Counted(m, c, 0);
      Others(m, n, d, x, c, 0);
    }
  }

  /** A long message with one more handle. */
  function WithCopy(m: Mem, h: Id, d: Id): Mem
    requires Owns(m, h)
  {
    var s := Share(m, h, 1);
    s.(handles := s.handles[d := s.handles[h]])
  }

  lemma ShareCopied(m: Mem, h: Id, d: Id)
    requires Sound(m) && Owns(m, h) && !Owns(m, d)
    ensures m.handles[h].content in m.contents && Sound(WithCopy(m, h, d)) && WithCopy(m, h, d).freed == m.freed
    ensures Data(WithCopy(m, h, d), d) == Data(WithCopy(m, h, d), h) == Data(m, h)
    ensures forall g :: g != d ==> Data(WithCopy(m, h, d), g) == Data(m, g)
  {
    ShareOk(m, h, 1);
    CopyOk(Share(m, h, 1), h, d, 1);
    NothingReserved(WithCopy(m, h, d), m.handles[h].content);
    forall g | g != d ensures Data(WithCopy(m, h, d), g) == Data(Share(m, h, 1), g) {}
  }

  /** The handle is emptied; its own reference and `k` reserved ones, less one, are given back. */
  function Finish(m: Mem, h: Id, k: nat): Mem
    requires Owns(m, h) && m.handles[h].content in m.contents
  {
    var c, hs := m.handles[h].content, m.handles[h := Vsm([])];
    var left := m.contents[c].refcnt - k;
    if k > 0 && left == 0 then Mem(hs, m.contents - {c}, m.freed + [c], m.next)
    else Mem(hs, m.contents[c := m.contents[c].(refcnt := left)], m.freed, m.next)
  }

  lemma FinishOk(m: Mem, h: Id, k: nat)
    requires Owns(m, h) && m.handles[h].shared && Reserved(m, m.handles[h].content, k - 1)
    requires k == 0 ==> Users(m.handles, m.handles[h].content) != {h}
    ensures m.handles[h].content in m.contents && Sound(Finish(m, h, k))
    ensures Finish(m, h, k).freed == m.freed + if Users(m.handles, m.handles[h].content) == {h} then [m.handles[h].content] else []
    ensures forall g :: g != h ==> Data(Finish(m, h, k), g) == Data(m, g)
  {
    var at := m.handles[h].content;
    var us := Users(m.handles, at);
    assert h in us;
    assert us == {h} + (us - {h});
    assert us != {h} ==> us - {h} != {};
    Leaves(m.handles, h, Vsm([]), at);
    var n := Finish(m, h, k);
    forall c: Id ensures Counted(n, c, 0) {
      if c != at { Others(m, n, h, Vsm([]), c, 0); }
    }
    forall g | g != h ensures Data(n, g) == Data(m, g) {
      if Owns(m, g) {
        var c := m.handles[g].content;
        assert g in Users(n.handles, c) && Counted(n, c, 0);
      }
    }
  }

  /** A handle moves to another place. */
  function Transfer(m: Mem, d: Id, h: Id): Mem
    requires h in m.handles
  {
    m.(handles := m.handles[d := m.handles[h]][h := Vsm([])])
  }

  lemma TransferOk(m: Mem, d: Id, h: Id)
    requires Sound(m) && h in m.handles && !Owns(m, d) && d != h
    ensures Sound(Transfer(m, d, h)) && Data(Transfer(m, d, h), d) == Data(m, h)
  {
    var x, n := m.handles[h], Transfer(m, d, h);
    var hs := m.handles[d := x];
    forall c: Id ensures Counted(n, c, 0) {
      assert Counted(m, c, 0);
      if x.Lmsg? && x.content == c {
        Joins(m.handles, d, x);
        assert h in Users(hs, c);
        Leaves(hs, h, Vsm([]), c);
        assert d in Users(n.handles, c);
        Single(m.handles, n.handles, c, h, d);
      } else {
        Stays(m.handles, d, x, c);
        Stays(hs, h, Vsm([]), c);
      }
    }
  }

  lemma Single(hs: map<Id, Handle>, ns: map<Id, Handle>, c: Id, h: Id, d: Id)
    requires Users(ns, c) == Users(hs, c) + {d} - {h}
    ensures Users(hs, c) == {h} && d != h ==> Users(ns, c) == {d}
  {}

  // ----- The handles in memory -------------------------------------------------------------------

  class Store {
    var handles: map<Id, Handle>
    var contents: map<Id, Content>
    var freed: seq<Id>
    var nextContent: Id

    ghost function View(): Mem
      reads this
    {
      Mem(handles, contents, freed, nextContent)
    }

    constructor ()
      ensures View() == Mem(map[], map[], [], 0) && Sound(View())
    {
      handles, contents, freed, nextContent := map[], map[], [], 0;
    }

    method InitSize(h: Id, data: seq<byte>)
      requires Sound(View()) && !Owns(View(), h)
      modifies this
      ensures Sound(View()) && Data(View(), h) == data
      ensures View() == if |data| <= MAX_VSM_SIZE then old(View()).(handles := old(handles)[h := Vsm(data)])
                        else Allocate(old(View()), h, data)
    {
      PutOk(View(), h, Vsm(data));
      AllocateOk(View(), h, data);
      if |data| <= MAX_VSM_SIZE {
        handles := handles[h := Vsm(data)];
      } else {
        contents := contents[nextContent := Content(data, 0)];
        handles := handles[h := Lmsg(nextContent, false)];
        nextContent := nextContent + 1;
      }
    }

    /** Frees a content. */
    method Free(c: Id)
      modifies this`contents, this`freed
      ensures contents == old(contents) - {c} && freed == old(freed) + [c]
    {
      contents := contents - {c};
      freed := freed + [c];
    }

    /** Gives up a handle; the last one frees the content. */
    method Close(h: Id) returns (ok: bool)
      requires Sound(View()) && h in handles
      modifies this
      ensures Sound(View()) && ok == !old(handles)[h].Closed? && handles == old(handles)[h := Closed]
      ensures var x := old(handles)[h];
        freed == old(freed) + if x.Lmsg? && Users(old(handles), x.content) == {h} then [x.content] else []
      ensures !ok ==> View() == old(View())
      ensures !old(handles)[h].Lmsg? ==> View() == old(View()).(handles := handles)
      ensures forall g :: g != h ==> Data(View(), g) == old(Data(View(), g))
    {
      var x := handles[h];
      if x.Closed? {
        assert handles[h := Closed] == handles;
        return false;
      }
      if x.Lmsg? {
        DropOk(View(), h, Closed);
        var k := contents[x.content];
        if !x.shared || k.refcnt - 1 == 0 {
          Free(x.content);
        } else {
          contents := contents[x.content := k.(refcnt := k.refcnt - 1)];
        }
      } else {
        PutOk(View(), h, Closed);
      }
      handles := handles[h := Closed];
      ok := true;
    }

    /** Moves a message from one handle to another. */
    method Move(h: Id, src: Id) returns (ok: bool)
      requires Sound(View()) && h in handles && src in handles
      modifies this
      ensures Sound(View()) && ok == (!old(handles)[src].Closed? && !old(handles)[h].Closed?)
      ensures ok ==> src in handles && handles[src] == Vsm([]) && (h != src ==> Data(View(), h) == old(Data(View(), src)))
      ensures ok && h != src ==> handles == old(handles)[h := old(handles)[src]][src := Vsm([])]
      ensures ok ==> freed == old(freed) + if LastOwner(old(View()), h) then [old(handles)[h].content] else []
      ensures forall g :: g != h && g != src ==> Data(View(), g) == old(Data(View(), g))
      ensures !ok ==> View() == old(View())
    {
      if handles[src].Closed? { return false; }
      ok := Close(h);
      if !ok { return; }
      if h != src {
        TransferOk(View(), h, src);
      } else {
        PutOk(View(), h, Vsm([]));
        assert handles[h := handles[src]] == handles;
      }
      handles := handles[h := handles[src]];
      handles := handles[src := Vsm([])];
    }

    /** Lets another handle share the message. A handle copied to itself ends up closed. */
    method Copy(h: Id, src: Id) returns (ok: bool)
      requires Sound(View()) && h in handles && src in handles
      modifies this
      ensures Sound(View()) && ok == (!old(handles)[src].Closed? && !old(handles)[h].Closed?)
      ensures ok && h != src ==> Data(View(), h) == Data(View(), src) == old(Data(View(), src))
      ensures ok && h == src ==> handles == old(handles)[h := Closed]
      ensures ok ==> freed == old(freed) + if LastOwner(old(View()), h) then [old(handles)[h].content] else []
      ensures forall g :: g != h && g != src ==> Data(View(), g) == old(Data(View(), g))
      ensures !ok ==> View() == old(View())
    {
      if handles[src].Closed? { return false; }
      ok := Close(h);
      if !ok { return; }
      if handles[src].Lmsg? {
        ShareOne(h, src);
      } else {
        PutOk(View(), h, handles[src]);
        if h == src { assert handles[h := handles[src]] == handles; }
        handles := handles[h := handles[src]];
      }
    }

    /** The long message of `src` gets a second handle `h`. */
    method ShareOne(h: Id, src: Id)
      requires Sound(View()) && Owns(View(), src) && !Owns(View(), h)
      modifies this
      ensures Sound(View()) && Data(View(), h) == Data(View(), src) == old(Data(View(), src))
      ensures freed == old(freed) && forall g :: g != h && g != src ==> Data(View(), g) == old(Data(View(), g))
    {
      ShareCopied(View(), src, h);
      var x := handles[src];
      var k := contents[x.content];
      contents := contents[x.content := k.(refcnt := if x.shared then k.refcnt + 1 else 2)];
      handles := handles[src := x.(shared := true)];
      handles := handles[h := handles[src]];
    }

    /** Reserves references for handles to come. */
    method AddRefs(h: Id, refs: nat)
      requires Sound(View()) && h in handles
      modifies this
      ensures View() == if refs > 0 && Owns(old(View()), h) then Share(old(View()), h, refs) else old(View())
    {
      if refs == 0 { return; }
      var x := handles[h];
      if x.Lmsg? {
        ShareOk(View(), h, refs);
        var k := contents[x.content];
        contents := contents[x.content := k.(refcnt := if x.shared then k.refcnt + refs else refs + 1)];
        handles := handles[h := x.(shared := true)];
      }
    }

    /** Gives back references that were not used; of a message that is not shared, the only one. */
    method RmRefs(h: Id, refs: nat) returns (alive: bool)
      requires h in handles && (Shared(View(), h) ==> handles[h].content in contents)
      requires refs > 0 && !Shared(View(), h) ==> Sound(View())
      modifies this
      ensures refs == 0 ==> alive && View() == old(View())
      ensures refs > 0 && Shared(old(View()), h) ==> View() == GiveBack(old(View()), old(handles)[h].content, refs)
      ensures refs > 0 && Shared(old(View()), h) ==>
        (alive <==> old(contents)[old(handles)[h].content].refcnt != refs)
      ensures refs > 0 && !Shared(old(View()), h) ==>
        && !alive && Sound(View()) && handles == old(handles)[h := Closed]
        && freed == old(freed) + (if Owns(old(View()), h) && Users(old(handles), old(handles)[h].content) == {h} then [old(handles)[h].content] else [])
        && (!Owns(old(View()), h) ==> View() == old(View()).(handles := handles))
        && forall g :: g != h ==> Data(View(), g) == old(Data(View(), g))
    {
      if refs == 0 { return true; }
      var x := handles[h];
      if !x.Lmsg? || !x.shared {
        var ok := Close(h);
        return false;
      }
      contents := contents[x.content := contents[x.content].(refcnt := contents[x.content].refcnt - refs)];
      if contents[x.content].refcnt == 0 {
        Free(x.content);
        assert contents == old(contents) - {x.content};
        return false;
      }
      return true;
    }

    /** Writes the message to one pipe after the other; None stands for a pipe that refuses it. */
    method WriteToPipes(h: Id, dests: seq<Option<Id>>) returns (failed: nat)
      requires h in handles && Some(h) !in dests
      modifies this`handles
      ensures handles == CopiedTo(old(handles), old(handles)[h], dests) && failed == Refusals(dests)
      ensures h in handles && handles[h] == old(handles)[h]
    {
      failed := 0;
      var i := 0;
      assert dests[..0] == [];
      while i < |dests|
        invariant i <= |dests| && h in handles && handles[h] == old(handles)[h]
        invariant handles == CopiedTo(old(handles), old(handles)[h], dests[..i]) && failed == Refusals(dests[..i])
      {
        assert dests[..i + 1][..i] == dests[..i] && dests[i] in dests;
        if dests[i].Some? { handles := handles[dests[i].value := handles[h]]; } else { failed := failed + 1; }
        i := i + 1;
      }
      assert dests[..i] == dests;
    }

    /** Closes the handle and makes it an empty message. */
    method CloseAndInit(h: Id)
      requires Sound(View()) && h in handles
      modifies this
      ensures Sound(View()) && handles == old(handles)[h := Vsm([])]
      ensures freed == old(freed) + if LastOwner(old(View()), h) then [old(handles)[h].content] else []
      ensures !old(handles)[h].Lmsg? ==> View() == old(View()).(handles := handles)
      ensures forall g :: g != h ==> Data(View(), g) == old(Data(View(), g))
    {
      var ok := Close(h);
      PutOk(View(), h, Vsm([]));
      handles := handles[h := Vsm([])];
    }

    /** Hands a message to several pipes, some of which may refuse it. */
    method Distribute(h: Id, dests: seq<Option<Id>>)
      requires Sound(View()) && h in handles && Places(View(), h, dests)
      modifies this
      ensures Distributed(old(View()), View(), h, dests)
    {
      if dests == [] {
        CloseAndInit(h);
      } else if !handles[h].Lmsg? {
        SendPlain(h, dests);
      } else if !handles[h].shared && |dests| == 1 {
        SendSingle(h, dests);
      } else {
        SendShared(h, dests);
      }
    }

    /** A message without content of its own is copied. */
    method SendPlain(h: Id, dests: seq<Option<Id>>)
      requires Sound(View()) && h in handles && !handles[h].Lmsg? && Places(View(), h, dests) && dests != []
      modifies this
      ensures Distributed(old(View()), View(), h, dests)
    {
      DistributedPlain(View(), h, dests);
      if handles[h].Vsm? {
        var failed := WriteToPipes(h, dests);
        CloseAndInit(h);
      } else {
        AddRefs(h, |dests| - 1);
        var failed := WriteToPipes(h, dests);
        RmRefsAndInit(h, failed);
      }
    }

    /** Gives up the references of a message without content, and makes it an empty one. */
    method RmRefsAndInit(h: Id, failed: nat)
      requires Sound(View()) && h in handles && !handles[h].Lmsg?
      modifies this
      ensures Sound(View()) && View() == old(View()).(handles := old(handles)[h := Vsm([])])
    {
      PutOk(View(), h, Vsm([]));
      ghost var closed: map<Id, Handle> := handles[h := Closed];
      assert closed[h := Vsm([])] == handles[h := Vsm([])];
      if failed > 0 { var alive := RmRefs(h, failed); }
      handles := handles[h := Vsm([])];
    }

    /** The only handle of a message goes to the only pipe, or is closed. */
    method SendSingle(h: Id, dests: seq<Option<Id>>)
      requires Sound(View()) && Owns(View(), h) && !handles[h].shared && Places(View(), h, dests) && |dests| == 1
      modifies this
      ensures Distributed(old(View()), View(), h, dests)
    {
      ghost var m := View();
      DistributedSingle(m, h, dests);
      AddRefs(h, |dests| - 1);
      var failed := WriteToPipes(h, dests);
      OneCopy(m.handles, m.handles[h], dests);
      if failed > 0 {
        var alive := RmRefs(h, failed);
        PutOk(View(), h, Vsm([]));
      }
      handles := handles[h := Vsm([])];
    }

    /** Every pipe that takes the message gets one of the references added in advance; those of the
        others are given back. */
    method SendShared(h: Id, dests: seq<Option<Id>>)
      requires Sound(View()) && Owns(View(), h) && Places(View(), h, dests)
      requires |dests| > 1 || (|dests| == 1 && handles[h].shared)
      modifies this
      ensures Distributed(old(View()), View(), h, dests)
    {
      DistributedShared(View(), h, dests);
      AddShared(h, |dests| - 1);
      var failed := WriteToPipes(h, dests);
      RmShared(h, failed);
    }

    method AddShared(h: Id, refs: nat)
      requires Sound(View()) && Owns(View(), h) && (refs > 0 || handles[h].shared)
      modifies this
      ensures View() == Share(old(View()), h, refs)
    {
      ShareNothing(View(), h);
      AddRefs(h, refs);
    }

    method RmShared(h: Id, failed: nat)
      requires Shared(View(), h) && handles[h].content in contents
      modifies this
      ensures View() == Finish(old(View()), h, failed)
    {
      ghost var c := contents;
      assert c[handles[h].content := c[handles[h].content]] == c;
      var alive := RmRefs(h, failed);
      handles := handles[h := Vsm([])];
    }
  }

  predicate Shared(m: Mem, h: Id) { Owns(m, h) && m.handles[h].shared }

  /** `k` references of a content are given back. */
  function GiveBack(m: Mem, c: Id, k: nat): Mem
    requires c in m.contents
  {
    var left := m.contents[c].refcnt - k;
    if k > 0 && left == 0 then m.(contents := m.contents - {c}, freed := m.freed + [c])
    else m.(contents := m.contents[c := m.contents[c].(refcnt := left)])
  }

  /** The pipes' places for the message are different, and not in use. */
  ghost predicate Places(m: Mem, h: Id, dests: seq<Option<Id>>) {
    && (forall d :: Some(d) in dests ==> d != h && d !in m.handles)
    && (forall i, j :: 0 <= i < j < |dests| && dests[i].Some? ==> dests[i] != dests[j])
  }

  function CopiedTo(hs: map<Id, Handle>, x: Handle, dests: seq<Option<Id>>): map<Id, Handle>
    decreases |dests|
  {
    if dests == [] then hs
    else
      var n := |dests| - 1;
      var r := CopiedTo(hs, x, dests[..n]);
      if dests[n].Some? then r[dests[n].value := x] else r
  }

  function Refusals(dests: seq<Option<Id>>): (k: nat)
    ensures k <= |dests|
    decreases |dests|
  {
    if dests == [] then 0 else Refusals(dests[..|dests| - 1]) + if dests[|dests| - 1].None? then 1 else 0
  }

  lemma {:induction false} CopiedAt(hs: map<Id, Handle>, x: Handle, dests: seq<Option<Id>>, g: Id)
    ensures Some(g) in dests ==> g in CopiedTo(hs, x, dests) && CopiedTo(hs, x, dests)[g] == x
    ensures Some(g) !in dests ==>
      (g in CopiedTo(hs, x, dests) <==> g in hs) && (g in hs ==> CopiedTo(hs, x, dests)[g] == hs[g])
    decreases |dests|
  {
    if dests != [] {
      var n := |dests| - 1;
      CopiedAt(hs, x, dests[..n], g);
      assert dests == dests[..n] + [dests[n]];
    }
  }

  lemma PlacesBefore(m: Mem, h: Id, dests: seq<Option<Id>>)
    requires Places(m, h, dests) && dests != []
    ensures var n := |dests| - 1; Places(m, h, dests[..n]) && (dests[n].Some? ==> dests[n] !in dests[..n])
  {
    var n := |dests| - 1;
    forall d | Some(d) in dests[..n] ensures d != h && d !in m.handles { assert Some(d) in dests; }
    forall i | 0 <= i < n ensures dests[n].Some? ==> dests[..n][i] != dests[n] { assert dests[..n][i] == dests[i]; }
  }

  /** Copies of a handle that owns nothing. */
  lemma {:induction false} CopiedPlain(m: Mem, h: Id, dests: seq<Option<Id>>)
    requires Sound(m) && h in m.handles && !Owns(m, h) && Places(m, h, dests)
    ensures Sound(m.(handles := CopiedTo(m.handles, m.handles[h], dests)))
    decreases |dests|
  {
    if dests != [] {
      var n := |dests| - 1;
      PlacesBefore(m, h, dests);
      CopiedPlain(m, h, dests[..n]);
      if dests[n].Some? {
        assert dests[n] in dests;
        CopiedAt(m.handles, m.handles[h], dests[..n], dests[n].value);
        PutOk(m.(handles := CopiedTo(m.handles, m.handles[h], dests[..n])), dests[n].value, m.handles[h]);
      }
    }
  }

  /** Copies of a shared handle use up reserved references. */
  lemma {:induction false} CopiedShared(m: Mem, h: Id, dests: seq<Option<Id>>, extra: int)
    requires Shared(m, h) && Reserved(m, m.handles[h].content, extra) && Places(m, h, dests)
    ensures Reserved(m.(handles := CopiedTo(m.handles, m.handles[h], dests)), m.handles[h].content, extra - (|dests| - Refusals(dests)))
    decreases |dests|
  {
    if dests != [] {
      var n := |dests| - 1;
      PlacesBefore(m, h, dests);
      CopiedShared(m, h, dests[..n], extra);
      var r := m.(handles := CopiedTo(m.handles, m.handles[h], dests[..n]));
      CopiedAt(m.handles, m.handles[h], dests[..n], h);
      if dests[n].Some? {
        assert dests[n] in dests;
        CopiedAt(m.handles, m.handles[h], dests[..n], dests[n].value);
        CopyOk(r, h, dests[n].value, extra - (n - Refusals(dests[..n])));
      }
    }
  }

  ghost predicate LastOwner(m: Mem, h: Id) { Owns(m, h) && Users(m.handles, m.handles[h].content) == {h} }

  /** The message of `h` is in every pipe that took it, and no other message changed. */
  ghost predicate Spread(m: Mem, n: Mem, h: Id, dests: seq<Option<Id>>) {
    forall g :: g != h ==> Data(n, g) == if Some(g) in dests then Data(m, h) else Data(m, g)
  }

  /** What a distribution achieves: the message is gone from the handle and spread to the pipes, and
      if nobody took it, its last handle freed its content. */
  ghost predicate Distributed(m: Mem, n: Mem, h: Id, dests: seq<Option<Id>>) {
    && Sound(n) && h in n.handles && n.handles[h] == Vsm([])
    && Spread(m, n, h, dests)
    && n.freed == m.freed + if LastOwner(m, h) && Refusals(dests) == |dests| then [m.handles[h].content] else []
  }

  lemma CopiedData(m: Mem, h: Id, dests: seq<Option<Id>>)
    requires h in m.handles && Places(m, h, dests)
    ensures var n := m.(handles := CopiedTo(m.handles, m.handles[h], dests));
      Spread(m, n, h, dests) && h in n.handles && n.handles[h] == m.handles[h]
  {
    var x := m.handles[h];
    var n := m.(handles := CopiedTo(m.handles, x, dests));
    assert Some(h) !in dests;
    CopiedAt(m.handles, x, dests, h);
    forall g | g != h ensures Data(n, g) == if Some(g) in dests then Data(m, h) else Data(m, g) {
      CopiedAt(m.handles, x, dests, g);
    }
  }

  /** A message without content. */
  lemma DistributedPlain(m: Mem, h: Id, dests: seq<Option<Id>>)
    requires Sound(m) && h in m.handles && !Owns(m, h) && Places(m, h, dests)
    ensures var r := m.(handles := CopiedTo(m.handles, m.handles[h], dests));
      Sound(r) && Distributed(m, r.(handles := r.handles[h := Vsm([])]), h, dests)
  {
    var r := m.(handles := CopiedTo(m.handles, m.handles[h], dests));
    CopiedPlain(m, h, dests);
    CopiedData(m, h, dests);
    PutOk(r, h, Vsm([]));
  }

  /** A message that is shared, or will be, with a copy in every pipe that took it. */
  function SentShared(m: Mem, h: Id, dests: seq<Option<Id>>): Mem
    requires Owns(m, h) && dests != []
  {
    var s := Share(m, h, |dests| - 1);
    s.(handles := CopiedTo(s.handles, s.handles[h], dests))
  }

  lemma SharePlaces(m: Mem, h: Id, dests: seq<Option<Id>>, n: nat)
    requires Owns(m, h) && Places(m, h, dests)
    ensures Places(Share(m, h, n), h, dests)
  {}

  lemma SentReserved(m: Mem, h: Id, dests: seq<Option<Id>>)
    requires Sound(m) && Owns(m, h) && Places(m, h, dests) && dests != []
    ensures var n := SentShared(m, h, dests);
      && Shared(n, h) && n.handles[h].content == m.handles[h].content
      && Reserved(n, m.handles[h].content, Refusals(dests) - 1) && n.freed == m.freed
  {
    var s := Share(m, h, |dests| - 1);
    SharePlaces(m, h, dests, |dests| - 1);
    ShareOk(m, h, |dests| - 1);
    CopiedShared(s, h, dests, |dests| - 1);
    assert Some(h) !in dests;
    CopiedAt(s.handles, s.handles[h], dests, h);
  }

  lemma SentSpread(m: Mem, h: Id, dests: seq<Option<Id>>)
    requires Sound(m) && Owns(m, h) && Places(m, h, dests) && dests != []
    ensures Spread(m, SentShared(m, h, dests), h, dests)
  {
    SharePlaces(m, h, dests, |dests| - 1);
    ShareOk(m, h, |dests| - 1);
    CopiedData(Share(m, h, |dests| - 1), h, dests);
  }

  lemma DistributedShared(m: Mem, h: Id, dests: seq<Option<Id>>)
    requires Sound(m) && Owns(m, h) && Places(m, h, dests) && dests != []
    ensures var n := SentShared(m, h, dests);
      && Shared(n, h) && n.handles[h].content in n.contents
      && Distributed(m, Finish(n, h, Refusals(dests)), h, dests)
  {
    var n, c := SentShared(m, h, dests), m.handles[h].content;
    SentReserved(m, h, dests);
    SentSpread(m, h, dests);
    SentUsers(m, h, dests);
    FinishOk(n, h, Refusals(dests));
  }

  /** The users of the content are those before and the pipes that took the message. */
  lemma SentUsers(m: Mem, h: Id, dests: seq<Option<Id>>)
    requires Owns(m, h) && Places(m, h, dests) && dests != []
    ensures var us := Users(SentShared(m, h, dests).handles, m.handles[h].content);
      us == {h} <==> LastOwner(m, h) && Refusals(dests) == |dests|
    ensures Refusals(dests) == 0 ==> Users(SentShared(m, h, dests).handles, m.handles[h].content) != {h}
  {
    var c := m.handles[h].content;
    var s := Share(m, h, |dests| - 1);
    var us, vs := Users(SentShared(m, h, dests).handles, c), Users(m.handles, c);
    AllRefused(dests);
    assert Some(h) !in dests;
    forall g: Id ensures g in us <==> g in vs || Some(g) in dests {
      CopiedAt(s.handles, s.handles[h], dests, g);
    }
    assert h in vs;
    if Refusals(dests) < |dests| {
      var i :| 0 <= i < |dests| && dests[i].Some?;
      assert dests[i] == Some(dests[i].value);
      assert dests[i].value in us && dests[i].value != h;
    }
  }

  lemma {:induction false} AllRefused(dests: seq<Option<Id>>)
    ensures Refusals(dests) == |dests| <==> forall i :: 0 <= i < |dests| ==> dests[i].None?
    decreases |dests|
  {
    if dests != [] { AllRefused(dests[..|dests| - 1]); }
  }

  lemma OneCopy(hs: map<Id, Handle>, x: Handle, dests: seq<Option<Id>>)
    requires |dests| == 1
    ensures CopiedTo(hs, x, dests) == if dests[0].Some? then hs[dests[0].value := x] else hs
    ensures Refusals(dests) == if dests[0].Some? then 0 else 1
  {
    assert dests[..0] == [];
  }

  /** The only handle of a message goes to the only pipe, or is closed. */
  lemma DistributedSingle(m: Mem, h: Id, dests: seq<Option<Id>>)
    requires Sound(m) && Owns(m, h) && !m.handles[h].shared && Places(m, h, dests) && |dests| == 1
    ensures dests[0].Some? ==> Distributed(m, Transfer(m, dests[0].value, h), h, dests)
    ensures LastOwner(m, h)
  {
    assert Counted(m, m.handles[h].content, 0) && h in Users(m.handles, m.handles[h].content);
    OneCopy(m.handles, m.handles[h], dests);
    if dests[0].Some? {
      assert dests[0] in dests;
      TransferOk(m, dests[0].value, h);
    }
  }

  /** Sharing a shared message with nobody else changes nothing. */
  lemma ShareNothing(m: Mem, h: Id)
    requires Sound(m) && Owns(m, h)
    ensures m.handles[h].shared ==> Share(m, h, 0) == m
  {
    assert Counted(m, m.handles[h].content, 0) && h in Users(m.handles, m.handles[h].content);
    var x := m.handles[h];
    if x.shared {
      assert m.handles[h := x] == m.handles;
      assert m.contents[x.content := m.contents[x.content]] == m.contents;
    }
  }

  lemma NothingReserved(m: Mem, c: Id)
    requires Reserved(m, c, 0)
    ensures Sound(m)
  {}
}
