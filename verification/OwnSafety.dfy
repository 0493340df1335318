/** Safety of the ownership tree over every run. */
module OwnSafety {
  import opened Basics
  import opened Own
  import opened OwnTree

  predicate IsCounted(c: Cmd) { c.Counted? || c.OwnCmd? }

  function NumCounted(cs: seq<Cmd>): nat
    decreases |cs|
  {
    if cs == [] then 0 else NumCounted(cs[1..]) + if IsCounted(cs[0]) then 1 else 0
  }

  lemma {:induction false} NumCountedAppend(cs: seq<Cmd>, c: Cmd)
    ensures NumCounted(cs + [c]) == NumCounted(cs) + if IsCounted(c) then 1 else 0
    decreases |cs|
  {
    if cs == [] {
      assert [c][1..] == [];
    } else {
      assert (cs + [c])[1..] == cs[1..] + [c];
      NumCountedAppend(cs[1..], c);
    }
  }

  lemma {:induction false} NoneCounted(cs: seq<Cmd>)
    requires NumCounted(cs) == 0
    ensures forall c <- cs :: !IsCounted(c)
    decreases |cs|
  {
    if cs != [] { NoneCounted(cs[1..]); }
  }

  /** Once c's acknowledgement is in the inbox, no termination request of c comes after it. */
  predicate ReqBeforeAck(inbox: seq<Cmd>, c: Id) {
    forall i, j :: 0 <= i < j < |inbox| && inbox[i] == TermAck(c) ==> inbox[j] != TermReq(c)
  }

  predicate Waited(p: Phase) { p == TermSent || p == Closing || p == Acked }
  predicate Unasked(p: Phase) { p == OwnSent || p == Owned || p == TermSent }

  function One(b: bool): nat { if b then 1 else 0 }

  predicate LocalOk(r: Rec) {
    && (!r.dead ==> r.o.sent == r.o.processed + NumCounted(r.inbox) + r.credits)
    && r.o.acks == |r.wait| + r.ext
    && (r.o.terminating ==> r.o.owned == {} && !r.deferred && !r.registered)
    && (r.dead ==> r.inbox == [] && r.credits == 0 && r.o.terminating && r.wait == {} && r.ext == 0)
    && (r.owner.None? <==> r.phase == Root)
    && (r.phase == Root ==> !r.deferred)
    && (Unasked(r.phase) ==> !r.o.terminating && !r.deferred)
    && (r.phase == Closing ==> r.o.terminating || r.deferred)
    && (r.phase == Acked || r.phase == Done <==> r.dead && r.owner.Some?)
    && multiset(r.inbox)[Term] == One(r.phase == TermSent)
  }

  /** Everything the object knows by name is a child of its own. */
  ghost predicate KnownOk(s: State, i: Id)
    requires i in s
  {
    && (forall c <- s[i].inbox :: !c.Counted? && !c.Term? ==> c.child in s && s[c.child].owner == Some(i))
    && (forall c <- s[i].o.owned :: c in s && s[c].owner == Some(i))
    && (forall c <- s[i].wait :: c in s && s[c].owner == Some(i))
  }

  /** The inbox of an owner and the phase of its child `c`. */
  predicate InboxOk(inbox: seq<Cmd>, c: Id, phase: Phase) {
    && multiset(inbox)[OwnCmd(c)] == One(phase == OwnSent)
    && multiset(inbox)[TermAck(c)] == One(phase == Acked)
    && (phase == Done ==> TermReq(c) !in inbox)
    && ReqBeforeAck(inbox, c)
  }

  /** The sets an owner keeps and the phase of its child `c`. */
  predicate SetsOk(owned: set<Id>, wait: set<Id>, c: Id, phase: Phase) {
    && (c in owned <==> phase == Owned)
    && (c in wait <==> Waited(phase))
  }

  ghost predicate NodeOk(s: State, i: Id)
    requires i in s
  {
    LocalOk(s[i]) && KnownOk(s, i)
  }

  ghost predicate EdgeOk(s: State, c: Id)
    requires c in s
  {
    s[c].owner.Some? ==>
      var p := s[c].owner.value;
      && p in s && p != c
      && InboxOk(s[p].inbox, c, s[c].phase)
      && SetsOk(s[p].o.owned, s[p].wait, c, s[c].phase)
      && (s[p].dead ==> s[c].phase == Done)
  }

  ghost predicate Inv(s: State) {
    && (forall i {:trigger NodeOk(s, i)} :: i in s ==> NodeOk(s, i))
    && (forall c {:trigger EdgeOk(s, c)} :: c in s ==> EdgeOk(s, c))
  }

  // ---- pushing to and popping from an inbox ----

  lemma PushFacts(inbox: seq<Cmd>, x: Cmd)
    ensures multiset(inbox + [x]) == multiset(inbox) + multiset{x}
    ensures forall c :: c in inbox + [x] <==> c in inbox || c == x
    ensures NumCounted(inbox + [x]) == NumCounted(inbox) + One(IsCounted(x))
  {
    NumCountedAppend(inbox, x);
  }

  /** A command that does not concern the child, or a request of a child still to acknowledge. */
  lemma PushOther(inbox: seq<Cmd>, x: Cmd, c: Id, phase: Phase)
    requires InboxOk(inbox, c, phase) && x != OwnCmd(c) && x != TermAck(c)
    requires x == TermReq(c) ==> phase != Acked && phase != Done
    ensures InboxOk(inbox + [x], c, phase)
  {
    assert multiset(inbox + [x]) == multiset(inbox) + multiset{x};
    assert x == TermReq(c) ==> TermAck(c) !in multiset(inbox);
  }

  lemma PushAck(inbox: seq<Cmd>, c: Id, phase: Phase)
    requires InboxOk(inbox, c, phase) && phase == Closing
    ensures InboxOk(inbox + [TermAck(c)], c, Acked)
  {
    assert multiset(inbox + [TermAck(c)]) == multiset(inbox) + multiset{TermAck(c)};
  }

  lemma PopFacts(inbox: seq<Cmd>)
    requires inbox != []
    ensures multiset(inbox) == multiset(inbox[1..]) + multiset{inbox[0]}
    ensures forall c :: c in inbox <==> c in inbox[1..] || c == inbox[0]
    ensures NumCounted(inbox) == NumCounted(inbox[1..]) + One(IsCounted(inbox[0]))
  {
    assert inbox == [inbox[0]] + inbox[1..];
  }

  lemma PopOther(inbox: seq<Cmd>, c: Id, phase: Phase)
    requires inbox != [] && InboxOk(inbox, c, phase) && inbox[0] != OwnCmd(c) && inbox[0] != TermAck(c)
    ensures InboxOk(inbox[1..], c, phase)
  {
    PopFacts(inbox);
  }

  /** The child's own command is taken from the inbox. */
  lemma PopOwn(inbox: seq<Cmd>, c: Id, phase: Phase, next: Phase)
    requires inbox != [] && InboxOk(inbox, c, phase) && inbox[0] == OwnCmd(c) && (next == Owned || next == TermSent)
    ensures phase == OwnSent && InboxOk(inbox[1..], c, next)
  {
    PopFacts(inbox);
    assert multiset(inbox)[inbox[0]] > 0;
  }

  /** The child's acknowledgement is taken from the inbox: its requests were all before it. */
  lemma PopAck(inbox: seq<Cmd>, c: Id, phase: Phase)
    requires inbox != [] && InboxOk(inbox, c, phase) && inbox[0] == TermAck(c)
    ensures phase == Acked && InboxOk(inbox[1..], c, Done)
  {
    PopFacts(inbox);
    assert multiset(inbox)[inbox[0]] > 0;
    forall j | 0 <= j < |inbox[1..]| ensures inbox[1..][j] != TermReq(c) { assert inbox[1..][j] == inbox[j + 1]; }
  }

  // ---- destroying ----

  /** A finished object has nothing left in its inbox, and every child it ever
      launched has been deallocated and acknowledged. */
  lemma FinishedIsIdle(s: State, i: Id)
    requires Inv(s) && Alive(s, i) && Finished(s[i].o)
    ensures s[i].inbox == [] && s[i].credits == 0 && s[i].o.owned == {} && s[i].wait == {}
    ensures forall c <- s :: s[c].owner == Some(i) ==> s[c].phase == Done
  {
    var r := s[i];
    assert NodeOk(s, i);
    NoneCounted(r.inbox);
    forall x | x in r.inbox && !IsCounted(x) && x != Term
      ensures x.child in s && s[x.child].owner == Some(i) && s[x.child].phase != Done
    {
      NamedIsNotDone(s, i, x);
    }
    forall c | c in s && s[c].owner == Some(i) ensures s[c].phase == Done {
      assert EdgeOk(s, c) && NodeOk(s, c);
      assert OwnCmd(c) !in r.inbox;
    }
    assert multiset(r.inbox)[Term] == 0;
    NobodyThere(r.inbox);
  }

  lemma NamedIsNotDone(s: State, i: Id, x: Cmd)
    requires Inv(s) && i in s && x in s[i].inbox && !IsCounted(x) && x != Term
    ensures x.child in s && s[x.child].owner == Some(i) && s[x.child].phase != Done
  {
    assert NodeOk(s, i);
    assert EdgeOk(s, x.child);
  }

  lemma NobodyThere(cs: seq<Cmd>)
    ensures (forall x :: x !in cs) ==> cs == []
  {
    if cs != [] { assert cs[0] in cs; }
  }

  /** If only the records in `touched` change and no owner does, only they and their
      edges have to be looked at again. */
  lemma Rebuild(s: State, t: State, touched: set<Id>)
    requires Inv(s) && s.Keys <= t.Keys
    requires forall i <- s :: t[i].owner == s[i].owner
    requires forall i <- t :: i !in touched ==> i in s && t[i] == s[i]
    requires forall i <- t :: i in touched ==> NodeOk(t, i) && EdgeOk(t, i)
    requires forall c <- t :: t[c].owner.Some? && t[c].owner.value in touched ==> EdgeOk(t, c)
    ensures Inv(t)
  {
    forall j | j in t ensures NodeOk(t, j) {
      if j !in touched { assert NodeOk(s, j); }
    }
    forall c | c in t ensures EdgeOk(t, c) {
      if c !in touched { assert EdgeOk(s, c); }
    }
  }

  lemma CheckOk(s: State, i: Id)
    requires Inv(s) && Alive(s, i)
    ensures Check(s, i).Go? && Inv(Check(s, i).s)
  {
    if Finished(s[i].o) {
      FinishedIsIdle(s, i);
      if s[i].owner.Some? {
        OwnerAlive(s, i);
        DestroyChild(s, i, s[i].owner.value);
        assert Check(s, i) == Go(Destroyed(s, i, s[i].owner.value));
      } else {
        DestroyRoot(s, i);
      }
    }
  }

  lemma OwnerAlive(s: State, i: Id)
    requires Inv(s) && Alive(s, i) && s[i].owner.Some?
    ensures Alive(s, s[i].owner.value) && s[i].owner.value != i
  {
    assert NodeOk(s, i) && EdgeOk(s, i);
  }

  lemma DestroyRoot(s: State, i: Id)
    requires Inv(s) && Alive(s, i) && Finished(s[i].o) && s[i].owner.None?
    requires s[i].inbox == [] && s[i].credits == 0 && s[i].wait == {}
    requires forall c <- s :: s[c].owner == Some(i) ==> s[c].phase == Done
    ensures Inv(s[i := s[i].(dead := true, registered := false)])
  {
    var t := s[i := s[i].(dead := true, registered := false)];
    assert NodeOk(s, i);
    forall c | c in t && t[c].owner == Some(i) ensures EdgeOk(t, c) { assert EdgeOk(s, c); }
    Rebuild(s, t, {i});
  }

  function Destroyed(s: State, i: Id, p: Id): State
    requires i in s && p in s
  {
    s[i := s[i].(dead := true, registered := false, phase := Acked)][p := Push(s[p], TermAck(i))]
  }

  lemma DestroyedSelf(s: State, i: Id, p: Id)
    requires Inv(s) && Alive(s, i) && Alive(s, p) && i != p && Finished(s[i].o) && s[i].owner == Some(p)
    requires s[i].inbox == [] && s[i].credits == 0 && s[i].wait == {}
    ensures NodeOk(Destroyed(s, i, p), i) && s[i].phase == Closing
  {
    assert NodeOk(s, i);
  }

  lemma DestroyedOwner(s: State, i: Id, p: Id)
    requires Inv(s) && Alive(s, i) && Alive(s, p) && i != p && s[i].owner == Some(p)
    ensures NodeOk(Destroyed(s, i, p), p)
  {
    assert NodeOk(s, p);
    PushFacts(s[p].inbox, TermAck(i));
  }

  lemma DestroyedEdge(s: State, i: Id, p: Id, c: Id)
    requires Inv(s) && Alive(s, i) && Alive(s, p) && i != p && s[i].owner == Some(p) && s[i].phase == Closing
    requires forall c <- s :: s[c].owner == Some(i) ==> s[c].phase == Done
    requires c in s
    ensures EdgeOk(Destroyed(s, i, p), c)
  {
    assert EdgeOk(s, c);
    if c == i {
      PushAck(s[p].inbox, i, s[i].phase);
    } else if s[c].owner == Some(p) {
      PushOther(s[p].inbox, TermAck(i), c, s[c].phase);
    }
  }

  lemma DestroyChild(s: State, i: Id, p: Id)
    requires Inv(s) && Alive(s, i) && Alive(s, p) && i != p && Finished(s[i].o) && s[i].owner == Some(p)
    requires s[i].inbox == [] && s[i].credits == 0 && s[i].wait == {}
    requires forall c <- s :: s[c].owner == Some(i) ==> s[c].phase == Done
    ensures Inv(Destroyed(s, i, p))
  {
    DestroyedSelf(s, i, p);
    var t := Destroyed(s, i, p);
    forall j | j in t ensures NodeOk(t, j) { DestroyedNode(s, i, p, j); }
    forall c | c in t ensures EdgeOk(t, c) { DestroyedEdge(s, i, p, c); }
  }

  lemma DestroyedNode(s: State, i: Id, p: Id, j: Id)
    requires Inv(s) && Alive(s, i) && Alive(s, p) && i != p && Finished(s[i].o) && s[i].owner == Some(p)
    requires s[i].inbox == [] && s[i].credits == 0 && s[i].wait == {} && j in s
    ensures NodeOk(Destroyed(s, i, p), j)
  {
    if j == i {
      DestroyedSelf(s, i, p);
    } else if j == p {
      DestroyedOwner(s, i, p);
    } else {
      assert NodeOk(s, j);
      DestroyedOther(s, i, p, j);
    }
  }

  lemma DestroyedOther(s: State, i: Id, p: Id, j: Id)
    requires i in s && p in s && j in s && j != i && j != p && NodeOk(s, j)
    ensures NodeOk(Destroyed(s, i, p), j)
  {
  }

  // ---- steps that change one record ----

  /** Only the record of `i` changes, and neither its place in the tree nor its phase. */
  lemma TouchOne(s: State, i: Id, r: Rec)
    requires Inv(s) && i in s && r.owner == s[i].owner && r.phase == s[i].phase && r.dead == s[i].dead
    requires r.o.owned == s[i].o.owned && r.wait == s[i].wait
    requires NodeOk(s[i := r], i)
    requires forall c <- s :: s[c].owner == Some(i) ==> InboxOk(r.inbox, c, s[c].phase)
    ensures Inv(s[i := r])
  {
    var t := s[i := r];
    assert EdgeOk(s, i);
    forall c | c in t && (c == i || t[c].owner == Some(i)) ensures EdgeOk(t, c) { assert EdgeOk(s, c); }
    Rebuild(s, t, {i});
  }

  lemma ChildrenSame(s: State, i: Id)
    requires Inv(s) && i in s
    ensures forall c <- s :: s[c].owner == Some(i) ==> InboxOk(s[i].inbox, c, s[c].phase)
  {
    forall c | c in s && s[c].owner == Some(i) ensures InboxOk(s[i].inbox, c, s[c].phase) { assert EdgeOk(s, c); }
  }

  /** Changing only counters of `i`. */
  lemma TouchFields(s: State, i: Id, r: Rec)
    requires Inv(s) && i in s
    requires r == s[i].(o := r.o, registered := r.registered, credits := r.credits, ext := r.ext, deferred := r.deferred)
    requires r.o.owned == s[i].o.owned && LocalOk(r)
    ensures Inv(s[i := r])
  {
    assert NodeOk(s, i);
    ChildrenSame(s, i);
    TouchOne(s, i, r);
  }

  /** A command about nobody, or a request of a child still to acknowledge, changes no child's standing. */
  lemma PushKeepsChildren(s: State, i: Id, x: Cmd)
    requires Inv(s) && i in s
    requires x == Counted || (x.TermReq? && x.child in s && s[x.child].phase != Acked && s[x.child].phase != Done)
    ensures forall c <- s :: s[c].owner == Some(i) ==> InboxOk(s[i].inbox + [x], c, s[c].phase)
  {
    forall c | c in s && s[c].owner == Some(i) ensures InboxOk(s[i].inbox + [x], c, s[c].phase) {
      assert EdgeOk(s, c);
      PushOther(s[i].inbox, x, c, s[c].phase);
    }
  }

  /** The inbox of `i` changes by what names no child, or a child of its own. */
  predicate Named(s: State, i: Id, was: seq<Cmd>, now: seq<Cmd>) {
    forall c <- now :: c in was || c == Counted || (c.TermReq? && c.child in s && s[c.child].owner == Some(i))
  }

  lemma TouchInbox(s: State, i: Id, r: Rec)
    requires Inv(s) && i in s && LocalOk(r) && Named(s, i, s[i].inbox, r.inbox)
    requires r == s[i].(inbox := r.inbox, o := r.o, credits := r.credits) && r.o.owned == s[i].o.owned
    requires forall c <- s :: s[c].owner == Some(i) ==> InboxOk(r.inbox, c, s[c].phase)
    ensures Inv(s[i := r])
  {
    assert NodeOk(s, i);
    TouchOne(s, i, r);
  }

  lemma SentLocal(r: Rec)
    requires LocalOk(r) && !r.dead && r.credits > 0
    ensures LocalOk(Push(r, Counted).(credits := r.credits - 1))
  {
    PushFacts(r.inbox, Counted);
  }

  lemma SendCountedOk(s: State, i: Id)
    requires Inv(s) && Alive(s, i) && s[i].credits > 0
    ensures Inv(s[i := Push(s[i], Counted).(credits := s[i].credits - 1)])
  {
    assert NodeOk(s, i);
    SentLocal(s[i]);
    PushKeepsChildren(s, i, Counted);
    TouchInbox(s, i, Push(s[i], Counted).(credits := s[i].credits - 1));
  }

  lemma RequestedLocal(r: Rec, c: Id)
    requires LocalOk(r) && !r.dead
    ensures LocalOk(Push(r, TermReq(c)))
  {
    PushFacts(r.inbox, TermReq(c));
  }

  /** A child that has not acknowledged yet may ask its owner at any time. */
  lemma SendTermReqOk(s: State, i: Id, p: Id)
    requires Inv(s) && Alive(s, i) && s[i].owner == Some(p)
    ensures Alive(s, p) && Inv(s[p := Push(s[p], TermReq(i))])
  {
    OwnerAlive(s, i);
    assert NodeOk(s, i) && NodeOk(s, p);
    RequestedLocal(s[p], i);
    PushKeepsChildren(s, p, TermReq(i));
    TouchInbox(s, p, Push(s[p], TermReq(i)));
  }

  function Launched(s: State, i: Id, c: Id, extra: nat): State
    requires i in s
  {
    var child := NEW_REC.(o := NEW_LOCAL.(sent := extra + 1), owner := Some(i), inbox := [Counted],
                         phase := OwnSent, credits := extra);
    s[c := child][i := Push(s[i].(o := s[i].o.(sent := s[i].o.sent + 1)), OwnCmd(c))]
  }

  lemma LaunchedChild(s: State, i: Id, c: Id, extra: nat)
    requires i in s && c !in s
    ensures NodeOk(Launched(s, i, c, extra), c)
  {
    assert NumCounted([Counted]) == 1 by { assert [Counted][1..] == []; }
  }

  lemma LaunchedOwner(s: State, i: Id, c: Id, extra: nat)
    requires Inv(s) && Alive(s, i) && c !in s
    ensures NodeOk(Launched(s, i, c, extra), i)
  {
    assert NodeOk(s, i);
    PushFacts(s[i].inbox, OwnCmd(c));
  }

  lemma LaunchedEdge(s: State, i: Id, c: Id, extra: nat, x: Id)
    requires Inv(s) && Alive(s, i) && c !in s && (x in s || x == c)
    ensures EdgeOk(Launched(s, i, c, extra), x)
  {
    var t := Launched(s, i, c, extra);
    if x == c {
      FreshIsUnknown(s, i, c);
      NewChildEdge(s[i], c, t[i]);
    } else {
      assert EdgeOk(s, x);
      if t[x].owner == Some(i) { PushOther(s[i].inbox, OwnCmd(c), x, s[x].phase); }
    }
  }

  lemma LaunchedNode(s: State, i: Id, c: Id, extra: nat, j: Id)
    requires Inv(s) && Alive(s, i) && c !in s && (j in s || j == c)
    ensures NodeOk(Launched(s, i, c, extra), j)
  {
    if j == c {
      LaunchedChild(s, i, c, extra);
    } else if j == i {
      LaunchedOwner(s, i, c, extra);
    } else {
      assert NodeOk(s, j);
      LaunchedOther(s, i, c, extra, j);
    }
  }

  lemma LaunchedOther(s: State, i: Id, c: Id, extra: nat, j: Id)
    requires i in s && c !in s && j in s && j != i && NodeOk(s, j)
    ensures NodeOk(Launched(s, i, c, extra), j)
  {
  }

  lemma LaunchOk(s: State, i: Id, c: Id, extra: nat)
    requires Inv(s) && Alive(s, i) && c !in s
    ensures Inv(Launched(s, i, c, extra))
  {
    var t := Launched(s, i, c, extra);
    forall j | j in t ensures NodeOk(t, j) { LaunchedNode(s, i, c, extra, j); }
    forall x | x in t ensures EdgeOk(t, x) { LaunchedEdge(s, i, c, extra, x); }
  }

  lemma FreshIsUnknown(s: State, i: Id, c: Id)
    requires Inv(s) && i in s && c !in s
    ensures OwnCmd(c) !in s[i].inbox && TermReq(c) !in s[i].inbox && TermAck(c) !in s[i].inbox
    ensures c !in s[i].o.owned && c !in s[i].wait
  {
    assert NodeOk(s, i);
  }

  lemma NewChildEdge(p: Rec, c: Id, q: Rec)
    requires OwnCmd(c) !in p.inbox && TermReq(c) !in p.inbox && TermAck(c) !in p.inbox && c !in p.o.owned && c !in p.wait
    requires q.inbox == p.inbox + [OwnCmd(c)]
    ensures InboxOk(q.inbox, c, OwnSent)
  {
    assert multiset(q.inbox) == multiset(p.inbox) + multiset{OwnCmd(c)};
    assert multiset(p.inbox)[OwnCmd(c)] == 0 && multiset(p.inbox)[TermAck(c)] == 0;
  }

  lemma NewRootOk(s: State, i: Id, r: Rec)
    requires Inv(s) && i !in s && LocalOk(r) && r.owner.None? && r.inbox == [] && r.o.owned == {} && r.wait == {}
    ensures Inv(s[i := r])
  {
    var t := s[i := r];
    forall j | j in t ensures NodeOk(t, j) { if j != i { assert NodeOk(s, j); } }
    forall j | j in t ensures EdgeOk(t, j) { if j != i { assert EdgeOk(s, j); } }
  }

  // ---- asking children to terminate ----

  function Asked(s: State, i: Id, e: Effect): State
    requires i in s
  {
    var t := SendTerms(s, e.terms);
    t[i := t[i].(o := e.o, wait := t[i].wait + e.terms)]
  }

  /** The fields after asking the owned children in `e.terms`. */
  predicate AskFields(r: Rec, e: Effect) {
    && e.terms <= r.o.owned
    && e.o == r.o.(owned := r.o.owned - e.terms, acks := r.o.acks + |e.terms|, terminating := e.o.terminating)
    && !r.dead
    && (e.o.terminating ==> e.o.owned == {} && !r.deferred && !r.registered && (r.phase == Root || r.phase == Closing))
    && (!e.o.terminating ==> !r.o.terminating)
  }

  /** As LocalOk, except that an object about to start terminating may look as if nothing had begun. */
  predicate AlmostOk(r: Rec) {
    LocalOk(r) || (r.phase == Closing && !r.o.terminating && !r.deferred && LocalOk(r.(deferred := true)))
  }

  lemma WaitGrows(s: State, i: Id, cs: set<Id>)
    requires i in s && cs <= s[i].o.owned
    requires KnownOk(s, i) && forall c {:trigger EdgeOk(s, c)} :: c in s ==> EdgeOk(s, c)
    ensures s[i].wait !! cs && |s[i].wait + cs| == |s[i].wait| + |cs|
    ensures i !in cs
    ensures forall c <- cs :: c in s && s[c].owner == Some(i) && s[c].phase == Owned
  {
    forall c | c in cs ensures c in s && c !in s[i].wait && c != i && s[c].phase == Owned && s[c].owner == Some(i) {
      assert EdgeOk(s, c);
    }
  }

  lemma AskedLocal(r: Rec, e: Effect)
    requires AlmostOk(r) && AskFields(r, e) && |r.wait + e.terms| == |r.wait| + |e.terms|
    requires r.phase == Closing ==> e.o.terminating || r.deferred
    ensures LocalOk(r.(o := e.o, wait := r.wait + e.terms))
  {
  }

  lemma AskedKnown(s: State, i: Id, e: Effect)
    requires i in s && KnownOk(s, i) && e.o.owned <= s[i].o.owned && i !in e.terms
    requires forall c <- e.terms :: c in s && s[c].owner == Some(i)
    ensures KnownOk(Asked(s, i, e), i)
  {
  }

  lemma AskedSelf(s: State, i: Id, e: Effect)
    requires i in s && AlmostOk(s[i]) && KnownOk(s, i) && AskFields(s[i], e)
    requires i !in e.terms && |s[i].wait + e.terms| == |s[i].wait| + |e.terms|
    requires forall c <- e.terms :: c in s && s[c].owner == Some(i)
    requires s[i].phase == Closing ==> e.o.terminating || s[i].deferred
    ensures NodeOk(Asked(s, i, e), i)
  {
    AskedLocal(s[i], e);
    AskedKnown(s, i, e);
  }

  /** A child that is asked to terminate. */
  lemma TermSentLocal(r: Rec)
    requires LocalOk(r) && (r.phase == OwnSent || r.phase == Owned)
    ensures LocalOk(Push(r, Term).(phase := TermSent))
  {
    PushFacts(r.inbox, Term);
  }

  lemma AskedChild(s: State, i: Id, e: Effect, j: Id)
    requires i in s && i !in e.terms && j in e.terms && j in s && NodeOk(s, j) && s[j].phase == Owned
    ensures NodeOk(Asked(s, i, e), j)
  {
    TermSentLocal(s[j]);
    var t := Asked(s, i, e);
    assert t[j] == Push(s[j], Term).(phase := TermSent);
    assert forall c <- t[j].inbox :: c in s[j].inbox || c == Term;
  }

  lemma AskedEdge(s: State, i: Id, e: Effect, c: Id)
    requires i in s && c in s && EdgeOk(s, c) && e.terms <= s[i].o.owned && e.o.owned == s[i].o.owned - e.terms
    requires i !in e.terms && !s[i].dead
    requires forall c <- e.terms :: c in s && s[c].owner == Some(i) && s[c].phase == Owned
    ensures EdgeOk(Asked(s, i, e), c)
  {
    if s[c].owner.Some? {
      var p := s[c].owner.value;
      var t := Asked(s, i, e);
      if p in e.terms {
        PushOther(s[p].inbox, Term, c, s[c].phase);
      } else if c in e.terms {
        assert p == i && InboxOk(s[p].inbox, c, TermSent);
      }
      assert SetsOk(t[p].o.owned, t[p].wait, c, t[c].phase);
    }
  }

  lemma AskedNodes(s: State, i: Id, e: Effect, j: Id)
    requires i in s && AlmostOk(s[i]) && KnownOk(s, i) && AskFields(s[i], e) && j in s
    requires i !in e.terms && s[i].wait !! e.terms && |s[i].wait + e.terms| == |s[i].wait| + |e.terms|
    requires forall c <- e.terms :: c in s && s[c].owner == Some(i) && s[c].phase == Owned
    requires j != i ==> NodeOk(s, j)
    requires s[i].phase == Closing ==> e.o.terminating || s[i].deferred
    ensures NodeOk(Asked(s, i, e), j)
  {
    if j == i {
      AskedSelf(s, i, e);
    } else if j in e.terms {
      AskedChild(s, i, e, j);
    } else {
      AskedOther(s, i, e, j);
    }
  }

  lemma AskedOther(s: State, i: Id, e: Effect, j: Id)
    requires i in s && j in s && j != i && j !in e.terms && NodeOk(s, j)
    ensures NodeOk(Asked(s, i, e), j)
  {
  }

  lemma AskOk(s: State, i: Id, e: Effect)
    requires i in s && AlmostOk(s[i]) && KnownOk(s, i) && AskFields(s[i], e)
    requires forall c {:trigger EdgeOk(s, c)} :: c in s ==> EdgeOk(s, c)
    requires forall c {:trigger NodeOk(s, c)} :: c in s && c != i ==> NodeOk(s, c)
    requires s[i].phase == Closing ==> e.o.terminating || s[i].deferred
    ensures Ask(s, i, e) == Go(Asked(s, i, e)) && Inv(Asked(s, i, e))
  {
    WaitGrows(s, i, e.terms);
    var t := Asked(s, i, e);
    forall c | c in e.terms ensures Alive(s, c) { assert NodeOk(s, c); }
    forall j | j in t ensures NodeOk(t, j) { assert j == i || NodeOk(s, j); AskedNodes(s, i, e, j); }
    forall c | c in t ensures EdgeOk(t, c) { assert EdgeOk(s, c); AskedEdge(s, i, e, c); }
  }

  lemma TermReqOk(s: State, i: Id, c: Id)
    requires Inv(s) && Alive(s, i)
    ensures Ask(s, i, ProcessTermReq(s[i].o, c)).Go? && Inv(Ask(s, i, ProcessTermReq(s[i].o, c)).s)
  {
    var e := ProcessTermReq(s[i].o, c);
    if e.terms == {} { AskNobody(s, i, e); } else { AskOneOk(s, i, c); }
  }

  lemma AskNobody(s: State, i: Id, e: Effect)
    requires i in s && e.terms == {} && e.o == s[i].o
    ensures Ask(s, i, e) == Go(s)
  {
    assert SendTerms(s, {}) == s && s[i].wait + {} == s[i].wait;
  }

  lemma AskOneOk(s: State, i: Id, c: Id)
    requires Inv(s) && Alive(s, i) && ProcessTermReq(s[i].o, c).terms != {}
    ensures Ask(s, i, ProcessTermReq(s[i].o, c)).Go? && Inv(Ask(s, i, ProcessTermReq(s[i].o, c)).s)
  {
    assert NodeOk(s, i);
    AskOk(s, i, ProcessTermReq(s[i].o, c));
  }

  /** own_t::process_term, for the root or for an object that has taken its `term`. */
  lemma StartTermOk(s: State, i: Id)
    requires Inv(s) && Alive(s, i) && !s[i].o.terminating && (s[i].phase == Root || s[i].deferred)
    ensures StartTerm(s, i).Go? && Inv(StartTerm(s, i).s) && Alive(StartTerm(s, i).s, i)
  {
    ClearedNodes(s, i);
    ClearedEdges(s, i);
    AskOk(s[i := s[i].(deferred := false, registered := false)], i, ProcessTerm(s[i].o));
  }

  lemma ClearedNodes(s: State, i: Id)
    requires Inv(s) && i in s
    ensures var t := s[i := s[i].(deferred := false, registered := false)];
      && (forall j {:trigger NodeOk(t, j)} :: j in t && j != i ==> NodeOk(t, j))
      && KnownOk(t, i) && LocalOk(t[i].(deferred := s[i].deferred))
  {
    assert NodeOk(s, i);
    var t := s[i := s[i].(deferred := false, registered := false)];
    assert LocalOk(t[i].(deferred := s[i].deferred));
    forall j | j in t && j != i ensures NodeOk(t, j) { assert NodeOk(s, j); }
  }

  lemma ClearedEdges(s: State, i: Id)
    requires Inv(s) && i in s
    ensures var t := s[i := s[i].(deferred := false, registered := false)];
      forall c {:trigger EdgeOk(t, c)} :: c in t ==> EdgeOk(t, c)
  {
    var t := s[i := s[i].(deferred := false, registered := false)];
    forall c | c in t ensures EdgeOk(t, c) { assert EdgeOk(s, c); }
  }

  lemma StartTermChecked(s: State, i: Id)
    requires Inv(s) && Alive(s, i) && !s[i].o.terminating && (s[i].phase == Root || s[i].deferred)
    ensures Then(StartTerm(s, i), i).Go? && Inv(Then(StartTerm(s, i), i).s)
  {
    StartTermOk(s, i);
    CheckOk(StartTerm(s, i).s, i);
  }

  // ---- delivering commands ----

  lemma PopKeepsChildren(s: State, i: Id)
    requires Inv(s) && i in s && s[i].inbox != [] && (!s[i].inbox[0].OwnCmd? && !s[i].inbox[0].TermAck?)
    ensures forall c <- s :: s[c].owner == Some(i) ==> InboxOk(s[i].inbox[1..], c, s[c].phase)
  {
    forall c | c in s && s[c].owner == Some(i) ensures InboxOk(s[i].inbox[1..], c, s[c].phase) {
      assert EdgeOk(s, c);
      PopOther(s[i].inbox, c, s[c].phase);
    }
  }

  /** A command is taken and, if it is a counted one, counted. */
  lemma TakenLocal(r: Rec)
    requires LocalOk(r) && !r.dead && r.inbox != [] && r.inbox[0] != Term
    ensures LocalOk(r.(inbox := r.inbox[1..], o := if IsCounted(r.inbox[0]) then ProcessSeqnum(r.o) else r.o))
  {
    PopFacts(r.inbox);
  }

  lemma TakenOk(s: State, i: Id)
    requires Inv(s) && Alive(s, i) && s[i].inbox != [] && (s[i].inbox[0] == Counted || s[i].inbox[0].TermReq?)
    ensures Inv(s[i := s[i].(inbox := s[i].inbox[1..], o := if s[i].inbox[0] == Counted then ProcessSeqnum(s[i].o) else s[i].o)])
  {
    assert NodeOk(s, i);
    TakenLocal(s[i]);
    PopKeepsChildren(s, i);
    TouchInbox(s, i, s[i].(inbox := s[i].inbox[1..], o := if s[i].inbox[0] == Counted then ProcessSeqnum(s[i].o) else s[i].o));
  }

  lemma CountedOk(s: State, i: Id)
    requires Inv(s) && Alive(s, i) && s[i].inbox != [] && s[i].inbox[0] == Counted
    ensures Inv(Count(Pop(s, i), i))
  {
    TakenOk(s, i);
    assert Count(Pop(s, i), i) == s[i := s[i].(inbox := s[i].inbox[1..], o := ProcessSeqnum(s[i].o))];
  }

  lemma TermReqPopOk(s: State, i: Id)
    requires Inv(s) && Alive(s, i) && s[i].inbox != [] && s[i].inbox[0].TermReq?
    ensures Inv(Pop(s, i))
  {
    TakenOk(s, i);
  }

  /** Taking `term`: the object enters its closing phase. */
  function TermTaken(r: Rec): Rec
    requires r.inbox != []
  {
    r.(inbox := r.inbox[1..], phase := Closing, deferred := true)
  }

  lemma TermTakenLocal(r: Rec)
    requires LocalOk(r) && !r.dead && r.inbox != [] && r.inbox[0] == Term
    ensures r.phase == TermSent && !r.o.terminating && !r.deferred && r.owner.Some? && LocalOk(TermTaken(r))
  {
    PopFacts(r.inbox);
    assert multiset(r.inbox)[Term] > 0;
  }

  lemma TermTakenEdge(s: State, i: Id, c: Id)
    requires Inv(s) && Alive(s, i) && s[i].inbox != [] && s[i].inbox[0] == Term && s[i].phase == TermSent
    requires c in s && (c == i || s[c].owner == Some(i))
    ensures EdgeOk(s[i := TermTaken(s[i])], c)
  {
    assert EdgeOk(s, c);
    if c == i {
      if s[i].owner.Some? { assert InboxOk(s[s[i].owner.value].inbox, i, Closing); }
    } else {
      PopOther(s[i].inbox, c, s[c].phase);
    }
  }

  lemma TermPopOk(s: State, i: Id)
    requires Inv(s) && Alive(s, i) && s[i].inbox != [] && s[i].inbox[0] == Term
    ensures !s[i].o.terminating && !s[i].deferred && s[i].owner.Some?
    ensures Inv(s[i := TermTaken(s[i])])
  {
    assert NodeOk(s, i);
    TermTakenLocal(s[i]);
    var t := s[i := TermTaken(s[i])];
    assert NodeOk(t, i);
    forall c | c in t && (c == i || t[c].owner == Some(i)) ensures EdgeOk(t, c) { TermTakenEdge(s, i, c); }
    Rebuild(s, t, {i});
  }

  lemma TermOk(s: State, i: Id, postpone: bool)
    requires Inv(s) && Alive(s, i) && s[i].inbox != [] && s[i].inbox[0] == Term
    ensures Handle(Pop(s, i), i, Term, postpone).Go? && Inv(Handle(Pop(s, i), i, Term, postpone).s)
  {
    TermPopOk(s, i);
    var t := s[i := TermTaken(s[i])];
    if postpone {
      assert Handle(Pop(s, i), i, Term, postpone).s == t;
    } else {
      StartTermChecked(t, i);
      SameStart(s, i);
    }
  }

  /** Whether the termination was put off in between makes no difference to it. */
  lemma SameStart(s: State, i: Id)
    requires Alive(s, i) && s[i].inbox != []
    ensures var t := s[i := TermTaken(s[i])];
      var u := Pop(s, i)[i := Pop(s, i)[i].(phase := Closing)];
      StartTerm(u, i) == StartTerm(t, i)
  {
    var t := s[i := TermTaken(s[i])];
    var u := Pop(s, i)[i := Pop(s, i)[i].(phase := Closing)];
    assert u[i := u[i].(deferred := false, registered := false)] == t[i := t[i].(deferred := false, registered := false)];
  }

  /** The child an `own` command names is a child in its first phase. */
  lemma OwnNamesChild(s: State, i: Id, x: Id)
    requires Inv(s) && i in s && s[i].inbox != [] && s[i].inbox[0] == OwnCmd(x)
    ensures x in s && s[x].owner == Some(i) && x != i && s[x].phase == OwnSent && !s[x].dead
    ensures x !in s[i].wait && x !in s[i].o.owned
  {
    assert NodeOk(s, i);
    assert s[i].inbox[0] in s[i].inbox;
    assert EdgeOk(s, x) && NodeOk(s, x);
    PopOwn(s[i].inbox, x, s[x].phase, Owned);
  }

  function OwnTaken(s: State, i: Id, x: Id): State
    requires i in s && x in s && s[i].inbox != []
  {
    s[x := s[x].(phase := Owned)]
     [i := s[i].(inbox := s[i].inbox[1..], o := ProcessSeqnum(s[i].o.(owned := s[i].o.owned + {x})))]
  }

  lemma OwnTakenOwner(s: State, i: Id, x: Id)
    requires Inv(s) && Alive(s, i) && s[i].inbox != [] && s[i].inbox[0] == OwnCmd(x) && !s[i].o.terminating
    ensures x in s && NodeOk(OwnTaken(s, i, x), i)
  {
    OwnNamesChild(s, i, x);
    assert NodeOk(s, i);
    PopFacts(s[i].inbox);
  }

  lemma OwnTakenChild(s: State, i: Id, x: Id)
    requires Inv(s) && Alive(s, i) && s[i].inbox != [] && s[i].inbox[0] == OwnCmd(x) && !s[i].o.terminating
    ensures x in s && NodeOk(OwnTaken(s, i, x), x)
  {
    OwnNamesChild(s, i, x);
    assert NodeOk(s, x);
  }

  lemma OwnTakenEdge(s: State, i: Id, x: Id, c: Id)
    requires i in s && x in s && c in s && x != i && s[x].owner == Some(i) && s[x].phase == OwnSent && !s[x].dead && !s[i].dead
    requires s[i].inbox != [] && s[i].inbox[0] == OwnCmd(x) && EdgeOk(s, c)
    ensures EdgeOk(OwnTaken(s, i, x), c)
  {
    var t := OwnTaken(s, i, x);
    if c == x {
      PopOwn(s[i].inbox, x, s[x].phase, Owned);
      assert t[c].phase == Owned && t[i].inbox == s[i].inbox[1..];
    } else if s[c].owner == Some(i) {
      PopOther(s[i].inbox, c, s[c].phase);
      assert t[c].phase == s[c].phase && t[i].inbox == s[i].inbox[1..];
    }
  }

  lemma OwnTakenOk(s: State, i: Id, x: Id)
    requires Inv(s) && Alive(s, i) && s[i].inbox != [] && s[i].inbox[0] == OwnCmd(x) && !s[i].o.terminating
    ensures x in s && Inv(OwnTaken(s, i, x))
  {
    OwnNamesChild(s, i, x);
    var t := OwnTaken(s, i, x);
    OwnTakenOwner(s, i, x);
    OwnTakenChild(s, i, x);
    forall c | c in t ensures EdgeOk(t, c) { assert EdgeOk(s, c); OwnTakenEdge(s, i, x, c); }
    Rebuild(s, t, {i, x});
  }

  /** A child that arrives late: it is asked to terminate straight away. */
  function LateChild(s: State, i: Id, x: Id): State
    requires i in s && x in s && s[i].inbox != []
  {
    s[x := Push(s[x], Term).(phase := TermSent)]
     [i := s[i].(inbox := s[i].inbox[1..], o := ProcessSeqnum(s[i].o.(acks := s[i].o.acks + 1)), wait := s[i].wait + {x})]
  }

  lemma LateNodes(s: State, i: Id, x: Id)
    requires Inv(s) && Alive(s, i) && s[i].inbox != [] && s[i].inbox[0] == OwnCmd(x) && s[i].o.terminating
    ensures x in s && NodeOk(LateChild(s, i, x), i) && NodeOk(LateChild(s, i, x), x)
  {
    LateOwnerNode(s, i, x);
    LateChildNode(s, i, x);
  }

  lemma LateOwnerNode(s: State, i: Id, x: Id)
    requires Inv(s) && Alive(s, i) && s[i].inbox != [] && s[i].inbox[0] == OwnCmd(x) && s[i].o.terminating
    ensures x in s && NodeOk(LateChild(s, i, x), i)
  {
    OwnNamesChild(s, i, x);
    assert NodeOk(s, i);
    PopFacts(s[i].inbox);
  }

  lemma LateChildNode(s: State, i: Id, x: Id)
    requires Inv(s) && Alive(s, i) && s[i].inbox != [] && s[i].inbox[0] == OwnCmd(x) && s[i].o.terminating
    ensures x in s && NodeOk(LateChild(s, i, x), x)
  {
    OwnNamesChild(s, i, x);
    assert NodeOk(s, x);
    TermSentLocal(s[x]);
    var t := LateChild(s, i, x);
    assert t[x] == Push(s[x], Term).(phase := TermSent);
    assert forall c <- t[x].inbox :: c in s[x].inbox || c == Term;
  }

  lemma LateInbox(s: State, i: Id, x: Id, c: Id, p: Id)
    requires i in s && x in s && c in s && x != i && s[x].owner == Some(i) && s[x].phase == OwnSent
    requires s[i].inbox != [] && s[i].inbox[0] == OwnCmd(x) && s[c].owner == Some(p) && EdgeOk(s, c)
    ensures p in s && InboxOk(LateChild(s, i, x)[p].inbox, c, LateChild(s, i, x)[c].phase)
  {
    var t := LateChild(s, i, x);
    if c == x {
      PopOwn(s[i].inbox, x, s[x].phase, TermSent);
      assert t[p].inbox == s[i].inbox[1..] && t[c].phase == TermSent;
    } else if p == i {
      PopOther(s[i].inbox, c, s[c].phase);
      LateChildElsewhere(s, i, x, c);
      assert t[p].inbox == s[i].inbox[1..];
    } else if p == x {
      PushOther(s[x].inbox, Term, c, s[c].phase);
      LateChildElsewhere(s, i, x, c);
      assert t[p].inbox == s[x].inbox + [Term];
    } else {
      LateChildElsewhere(s, i, x, c);
    }
  }

  /** A late child changes the phase of no other object. */
  lemma LateChildElsewhere(s: State, i: Id, x: Id, c: Id)
    requires i in s && x in s && c in s && x != i && c != x && s[i].inbox != []
    ensures LateChild(s, i, x)[c].phase == s[c].phase
  {
  }

  lemma LateEdge(s: State, i: Id, x: Id, c: Id)
    requires i in s && x in s && c in s && x != i && s[x].owner == Some(i) && s[x].phase == OwnSent && !s[x].dead && !s[i].dead
    requires s[i].inbox != [] && s[i].inbox[0] == OwnCmd(x) && EdgeOk(s, c)
    ensures EdgeOk(LateChild(s, i, x), c)
  {
    if s[c].owner.Some? {
      var t, p := LateChild(s, i, x), s[c].owner.value;
      LateInbox(s, i, x, c, p);
      assert SetsOk(t[p].o.owned, t[p].wait, c, t[c].phase);
    }
  }

  lemma LateOk(s: State, i: Id, x: Id)
    requires Inv(s) && Alive(s, i) && s[i].inbox != [] && s[i].inbox[0] == OwnCmd(x) && s[i].o.terminating
    ensures x in s && Inv(LateChild(s, i, x))
  {
    OwnNamesChild(s, i, x);
    var t := LateChild(s, i, x);
    LateNodes(s, i, x);
    forall c | c in t ensures EdgeOk(t, c) { assert EdgeOk(s, c); LateEdge(s, i, x, c); }
    Rebuild(s, t, {i, x});
  }

  lemma OwnOk(s: State, i: Id, x: Id, postpone: bool)
    requires Inv(s) && Alive(s, i) && s[i].inbox != [] && s[i].inbox[0] == OwnCmd(x)
    ensures Handle(Pop(s, i), i, OwnCmd(x), postpone).Go? && Inv(Handle(Pop(s, i), i, OwnCmd(x), postpone).s)
  {
    OwnNamesChild(s, i, x);
    if s[i].o.terminating {
      LateOk(s, i, x);
      LateHandled(s, i, x, postpone);
      CheckOk(LateChild(s, i, x), i);
    } else {
      OwnTakenOk(s, i, x);
      OwnHandled(s, i, x, postpone);
      CheckOk(OwnTaken(s, i, x), i);
    }
  }

  lemma LateHandled(s: State, i: Id, x: Id, postpone: bool)
    requires Alive(s, i) && s[i].inbox != [] && x in s && x != i && !s[x].dead && s[i].o.terminating
    ensures Handle(Pop(s, i), i, OwnCmd(x), postpone) == Check(LateChild(s, i, x), i)
  {
    var u := Pop(s, i);
    var e := ProcessOwn(u[i].o, x);
    assert e.terms == {x} && Ask(u, i, e).Go?;
    LateAsked(s, i, x);
  }

  lemma LateAsked(s: State, i: Id, x: Id)
    requires Alive(s, i) && s[i].inbox != [] && x in s && x != i && s[i].o.terminating
    ensures var e := ProcessOwn(s[i].o, x); e.terms == {x} && Count(Asked(Pop(s, i), i, e), i) == LateChild(s, i, x)
  {
  }

  lemma OwnHandled(s: State, i: Id, x: Id, postpone: bool)
    requires Alive(s, i) && s[i].inbox != [] && x in s && x != i && !s[i].o.terminating
    ensures Handle(Pop(s, i), i, OwnCmd(x), postpone) == Check(OwnTaken(s, i, x), i)
  {
    var u := Pop(s, i);
    var v := u[x := u[x].(phase := Owned)];
    OwnStored(v, i, x);
    assert Count(v[i := v[i].(o := v[i].o.(owned := v[i].o.owned + {x}))], i) == OwnTaken(s, i, x);
  }

  lemma OwnStored(v: State, i: Id, x: Id)
    requires i in v && !v[i].o.terminating
    ensures Ask(v, i, ProcessOwn(v[i].o, x)) == Go(v[i := v[i].(o := v[i].o.(owned := v[i].o.owned + {x}))])
  {
    assert SendTerms(v, {}) == v && v[i].wait + {} == v[i].wait;
  }

  lemma AckNamesChild(s: State, i: Id, x: Id)
    requires Inv(s) && i in s && s[i].inbox != [] && s[i].inbox[0] == TermAck(x)
    ensures x in s && s[x].owner == Some(i) && x != i && s[x].phase == Acked && s[x].dead
    ensures x in s[i].wait && s[i].o.acks > 0
  {
    assert NodeOk(s, i);
    assert s[i].inbox[0] in s[i].inbox;
    assert EdgeOk(s, x) && NodeOk(s, x);
    PopAck(s[i].inbox, x, s[x].phase);
    assert |s[i].wait| > 0;
  }

  function AckTaken(s: State, i: Id, x: Id): State
    requires i in s && x in s && s[i].inbox != [] && s[i].o.acks > 0
  {
    s[x := s[x].(phase := Done)]
     [i := s[i].(inbox := s[i].inbox[1..], o := UnregisterTermAck(s[i].o), wait := s[i].wait - {x})]
  }

  lemma AckTakenOwner(s: State, i: Id, x: Id)
    requires Inv(s) && Alive(s, i) && s[i].inbox != [] && s[i].inbox[0] == TermAck(x)
    ensures x in s && s[i].o.acks > 0 && NodeOk(AckTaken(s, i, x), i)
  {
    AckNamesChild(s, i, x);
    assert NodeOk(s, i);
    PopFacts(s[i].inbox);
  }

  lemma AckTakenChild(s: State, i: Id, x: Id)
    requires Inv(s) && Alive(s, i) && s[i].inbox != [] && s[i].inbox[0] == TermAck(x)
    ensures x in s && s[i].o.acks > 0 && NodeOk(AckTaken(s, i, x), x)
  {
    AckNamesChild(s, i, x);
    assert NodeOk(s, x);
  }

  lemma AckTakenNode(s: State, i: Id, x: Id, j: Id)
    requires Inv(s) && Alive(s, i) && s[i].inbox != [] && s[i].inbox[0] == TermAck(x) && j in s
    ensures x in s && s[i].o.acks > 0 && NodeOk(AckTaken(s, i, x), j)
  {
    AckNamesChild(s, i, x);
    if j == i { AckTakenOwner(s, i, x); }
    else if j == x { AckTakenChild(s, i, x); }
    else { assert NodeOk(s, j); }
  }

  lemma AckTakenEdge(s: State, i: Id, x: Id, c: Id)
    requires i in s && x in s && c in s && x != i && s[x].owner == Some(i) && s[x].phase == Acked && !s[i].dead
    requires s[i].inbox != [] && s[i].inbox[0] == TermAck(x) && s[i].o.acks > 0 && EdgeOk(s, c)
    ensures EdgeOk(AckTaken(s, i, x), c)
  {
    var t := AckTaken(s, i, x);
    if c == x {
      PopAck(s[i].inbox, x, s[x].phase);
      assert t[c].phase == Done && t[i].inbox == s[i].inbox[1..];
    } else if s[c].owner == Some(i) {
      PopOther(s[i].inbox, c, s[c].phase);
      assert t[c].phase == s[c].phase && t[i].inbox == s[i].inbox[1..];
    }
  }

  lemma AckTakenOk(s: State, i: Id, x: Id)
    requires Inv(s) && Alive(s, i) && s[i].inbox != [] && s[i].inbox[0] == TermAck(x)
    ensures x in s && s[i].o.acks > 0 && Inv(AckTaken(s, i, x))
  {
    AckNamesChild(s, i, x);
    var t := AckTaken(s, i, x);
    forall j | j in t ensures NodeOk(t, j) { AckTakenNode(s, i, x, j); }
    forall c | c in t ensures EdgeOk(t, c) { assert EdgeOk(s, c); AckTakenEdge(s, i, x, c); }
  }

  lemma AckOk(s: State, i: Id, x: Id, postpone: bool)
    requires Inv(s) && Alive(s, i) && s[i].inbox != [] && s[i].inbox[0] == TermAck(x)
    ensures Handle(Pop(s, i), i, TermAck(x), postpone).Go? && Inv(Handle(Pop(s, i), i, TermAck(x), postpone).s)
  {
    AckTakenOk(s, i, x);
    AckNamesChild(s, i, x);
    var u := Pop(s, i);
    var t := u[x := u[x].(phase := Done)];
    assert t[i := t[i].(o := UnregisterTermAck(t[i].o), wait := t[i].wait - {x})] == AckTaken(s, i, x);
    CheckOk(AckTaken(s, i, x), i);
  }

  lemma DeliverOk(s: State, i: Id, postpone: bool)
    requires Inv(s)
    ensures Next(s, Deliver(i, postpone)).Go? && Inv(Next(s, Deliver(i, postpone)).s)
  {
    if i in s && s[i].inbox != [] {
      assert NodeOk(s, i);
      assert !s[i].dead;
      match s[i].inbox[0]
      case Counted => CountedOk(s, i); CheckOk(Count(Pop(s, i), i), i);
      case OwnCmd(x) => OwnOk(s, i, x, postpone);
      case TermReq(x) => TermReqPopOk(s, i); TermReqOk(Pop(s, i), i, x);
      case Term => TermOk(s, i, postpone);
      case TermAck(x) => AckOk(s, i, x, postpone);
    }
  }

  /** Whoever may be addressed is alive. */
  lemma AnnounceOk(s: State, src: Id, dst: Id)
    requires Inv(s)
    ensures Next(s, Announce(src, dst)).Go? && Inv(Next(s, Announce(src, dst)).s)
  {
    if MayAnnounce(s, src, dst) { CreditOk(s, src, dst); }
  }

  lemma CreditOk(s: State, src: Id, dst: Id)
    requires Inv(s) && MayAnnounce(s, src, dst)
    ensures !s[dst].dead && Inv(s[dst := s[dst].(o := s[dst].o.(sent := s[dst].o.sent + 1), credits := s[dst].credits + 1)])
  {
    assert NodeOk(s, dst) && NodeOk(s, src) && EdgeOk(s, src);
    assert !s[dst].dead;
    TouchFields(s, dst, s[dst].(o := s[dst].o.(sent := s[dst].o.sent + 1), credits := s[dst].credits + 1));
  }

  lemma BindOk(s: State, i: Id)
    requires Inv(s)
    ensures Next(s, Bind(i)).Go? && Inv(Next(s, Bind(i)).s)
  {
    if Alive(s, i) && !s[i].o.terminating {
      assert NodeOk(s, i);
      TouchFields(s, i, s[i].(registered := true));
    }
  }

  lemma RegisteredOk(s: State, i: Id, n: nat)
    requires Inv(s) && Alive(s, i)
    ensures Inv(s[i := s[i].(o := s[i].o.(acks := s[i].o.acks + n), ext := s[i].ext + n)])
  {
    assert NodeOk(s, i);
    TouchFields(s, i, s[i].(o := s[i].o.(acks := s[i].o.acks + n), ext := s[i].ext + n));
  }

  lemma UnregisteredOk(s: State, i: Id)
    requires Inv(s) && Alive(s, i) && s[i].ext > 0
    ensures s[i].o.acks > 0 && Inv(s[i := s[i].(o := UnregisterTermAck(s[i].o), ext := s[i].ext - 1)])
  {
    assert NodeOk(s, i);
    TouchFields(s, i, s[i].(o := UnregisterTermAck(s[i].o), ext := s[i].ext - 1));
  }

  lemma RegisterOk(s: State, i: Id, n: nat)
    requires Inv(s)
    ensures Next(s, Register(i, n)).Go? && Inv(Next(s, Register(i, n)).s)
  {
    if Alive(s, i) { RegisteredOk(s, i, n); }
  }

  lemma UnregisterOk(s: State, i: Id)
    requires Inv(s)
    ensures Next(s, Unregister(i)).Go? && Inv(Next(s, Unregister(i)).s)
  {
    if Alive(s, i) && s[i].ext > 0 {
      UnregisteredOk(s, i);
      CheckOk(s[i := s[i].(o := UnregisterTermAck(s[i].o), ext := s[i].ext - 1)], i);
    }
  }

  lemma AskTermOk(s: State, i: Id)
    requires Inv(s)
    ensures Next(s, AskTerm(i)).Go? && Inv(Next(s, AskTerm(i)).s)
  {
    if Alive(s, i) && !s[i].o.terminating {
      assert NodeOk(s, i);
      if s[i].owner.None? { StartTermChecked(s, i); } else { SendTermReqOk(s, i, s[i].owner.value); }
    }
  }

  lemma CreationOk(s: State, ev: Event)
    requires Inv(s) && (ev.NewRoot? || ev.Launch?)
    ensures Next(s, ev).Go? && Inv(Next(s, ev).s)
  {
    match ev
    case NewRoot(i) => if i !in s { NewRootOk(s, i, NEW_REC); }
    case Launch(i, c, extra) => if Alive(s, i) && c !in s { LaunchOk(s, i, c, extra); }
  }

  lemma SendingOk(s: State, i: Id)
    requires Inv(s)
    ensures Next(s, SendCounted(i)).Go? && Inv(Next(s, SendCounted(i)).s)
  {
    if i in s && s[i].credits > 0 {
      assert NodeOk(s, i);
      SendCountedOk(s, i);
    }
  }

  lemma ProceedOk(s: State, i: Id)
    requires Inv(s)
    ensures Next(s, Proceed(i)).Go? && Inv(Next(s, Proceed(i)).s)
  {
    if Alive(s, i) && s[i].deferred {
      assert NodeOk(s, i);
      StartTermChecked(s, i);
    }
  }

  lemma NextOk(s: State, ev: Event)
    requires Inv(s)
    ensures Next(s, ev).Go? && Inv(Next(s, ev).s)
  {
    match ev
    case Bind(i) => BindOk(s, i);
    case Announce(src, dst) => AnnounceOk(s, src, dst);
    case SendCounted(i) => SendingOk(s, i);
    case AskTerm(i) => AskTermOk(s, i);
    case TermChild(i, c) => if Alive(s, i) { TermReqOk(s, i, c); }
    case Register(i, n) => RegisterOk(s, i, n);
    case Unregister(i) => UnregisterOk(s, i);
    case Proceed(i) => ProceedOk(s, i);
    case Deliver(i, postpone) => DeliverOk(s, i, postpone);
    case _ => CreationOk(s, ev);
  }

  lemma {:induction false} RunOk(s: State, evs: seq<Event>)
    requires Inv(s)
    ensures Run(s, evs).Go? && Inv(Run(s, evs).s)
    decreases |evs|
  {
    if evs != [] {
      NextOk(s, evs[0]);
      RunOk(Next(s, evs[0]).s, evs[1..]);
    }
  }

  /** `path` leads from an owner down to a descendant. */
  predicate Descends(s: State, path: seq<Id>) {
    && path != [] && (forall k :: 0 <= k < |path| ==> path[k] in s)
    && forall k :: 0 < k < |path| ==> s[path[k]].owner == Some(path[k - 1])
  }

  /** Main theorem: in every run of the tree no assertion fails (in particular no object
      takes `term` twice) and nothing is sent to or handled by a deallocated object; a deallocated
      object has no command in flight or announced to it, counted or not, and its whole
      subtree has been deallocated, each direct child with its acknowledgement taken. */
  lemma TreeIsSafe(evs: seq<Event>)
    ensures Run(map[], evs).Go?
    ensures var s := Run(map[], evs).s;
      forall i <- s :: s[i].dead ==>
        && s[i].inbox == [] && s[i].credits == 0
        && (forall c <- s :: s[c].owner == Some(i) ==> s[c].dead && s[c].phase == Done)
    ensures var s := Run(map[], evs).s;
      forall path :: Descends(s, path) && s[path[0]].dead ==> s[path[|path| - 1]].dead
  {
    RunOk(map[], evs);
    var s := Run(map[], evs).s;
    forall i | i in s && s[i].dead
      ensures s[i].inbox == [] && s[i].credits == 0
      ensures forall c <- s :: s[c].owner == Some(i) ==> s[c].dead && s[c].phase == Done
    {
      DeadIsIdle(s, i);
    }
    forall path | Descends(s, path) && s[path[0]].dead ensures s[path[|path| - 1]].dead {
      SubtreeDead(s, path);
    }
  }

  lemma DeadIsIdle(s: State, i: Id)
    requires Inv(s) && i in s && s[i].dead
    ensures s[i].inbox == [] && s[i].credits == 0
    ensures forall c <- s :: s[c].owner == Some(i) ==> s[c].dead && s[c].phase == Done
  {
    assert NodeOk(s, i);
    forall c | c in s && s[c].owner == Some(i) ensures s[c].dead && s[c].phase == Done {
      assert EdgeOk(s, c) && NodeOk(s, c);
    }
  }

  lemma {:induction false} SubtreeDead(s: State, path: seq<Id>)
    requires Inv(s) && Descends(s, path) && s[path[0]].dead
    ensures s[path[|path| - 1]].dead
    decreases |path|
  {
    if |path| > 1 {
      DeadIsIdle(s, path[0]);
      assert path[1] in s && s[path[1]].owner == Some(path[0]);
      var rest := path[1..];
      assert forall k :: 0 < k < |rest| ==> rest[k] == path[k + 1] && rest[k - 1] == path[k];
      SubtreeDead(s, rest);
    }
  }
}
