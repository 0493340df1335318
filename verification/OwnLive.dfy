/** What the ownership tree has to do: requests are served, and shutdown goes all the way down and
    back up again. */
module OwnLive {
  import opened Basics
  import opened Own
  import opened OwnTree
  import opened OwnSafety

  // ---- requests ----

  /** `c` was asked to terminate by `i`, which waits for it; nobody else is concerned. */
  predicate AskedOne(s: State, t: State, i: Id, c: Id) {
    && i in s && c in s && t.Keys == s.Keys
    && i in t && c in t && t[c].inbox == s[c].inbox + [Term] && t[c].phase == TermSent
    && t[i].o.acks == s[i].o.acks + 1 && t[i].o.owned == s[i].o.owned - {c} && t[i].wait == s[i].wait + {c}
    && forall j <- s :: j != i && j != c ==> t[j] == s[j]
  }

  lemma OwnedIsAlive(s: State, i: Id, c: Id)
    requires Inv(s) && Alive(s, i) && c in s[i].o.owned
    ensures Alive(s, c) && c != i && s[c].phase == Owned
  {
    assert NodeOk(s, i);
    assert EdgeOk(s, c) && NodeOk(s, c);
  }

  lemma AskedForOne(s: State, i: Id, c: Id)
    requires i in s && Alive(s, c) && c != i && c in s[i].o.owned && !s[i].o.terminating
    ensures var r := Ask(s, i, ProcessTermReq(s[i].o, c)); r.Go? && AskedOne(s, r.s, i, c) && r.s[i].inbox == s[i].inbox
  {}

  /** A request of an owned child is served when it is taken from the inbox. */
  lemma RequestServed(s: State, i: Id, c: Id, postpone: bool)
    requires Inv(s) && Alive(s, i) && !s[i].o.terminating
    requires s[i].inbox != [] && s[i].inbox[0] == TermReq(c) && c in s[i].o.owned
    ensures Next(s, Deliver(i, postpone)).Go?
    ensures var t := Next(s, Deliver(i, postpone)).s; AskedOne(s, t, i, c) && t[i].inbox == s[i].inbox[1..]
  {
    OwnedIsAlive(s, i, c);
    AskedForOne(Pop(s, i), i, c);
  }

  /** So is one that the owner makes itself. */
  lemma TermChildServed(s: State, i: Id, c: Id)
    requires Inv(s) && Alive(s, i) && !s[i].o.terminating && c in s[i].o.owned
    ensures Next(s, TermChild(i, c)).Go?
    ensures var t := Next(s, TermChild(i, c)).s; AskedOne(s, t, i, c) && t[i].inbox == s[i].inbox
  {
    OwnedIsAlive(s, i, c);
    AskedForOne(s, i, c);
  }

  /** Any other is ignored. */
  lemma RequestIgnored(s: State, i: Id, c: Id, postpone: bool)
    requires Inv(s) && Alive(s, i) && (s[i].o.terminating || c !in s[i].o.owned)
    requires s[i].inbox != [] && s[i].inbox[0] == TermReq(c)
    ensures Next(s, Deliver(i, postpone)) == Go(s[i := s[i].(inbox := s[i].inbox[1..])])
  {
    var u := Pop(s, i);
    assert SendTerms(u, {}) == u && u[i].wait + {} == u[i].wait;
    assert u[i := u[i]] == u;
  }

  /** terminate: a root starts, any other object's request is on its way to its owner. */
  lemma AskTermHeard(s: State, i: Id)
    requires Inv(s) && Alive(s, i) && !s[i].o.terminating
    ensures Next(s, AskTerm(i)).Go?
    ensures var t := Next(s, AskTerm(i)).s;
      match s[i].owner
      case None => i in t && t[i].o.terminating
      case Some(p) => p in s && t == s[p := Push(s[p], TermReq(i))]
  {
    NextOk(s, AskTerm(i));
    if s[i].owner.None? { Starts(s, i); } else { OwnerAlive(s, i); }
  }

  lemma Starts(s: State, i: Id)
    requires i in s && Then(StartTerm(s, i), i).Go?
    ensures i in Then(StartTerm(s, i), i).s && Then(StartTerm(s, i), i).s[i].o.terminating
  {
    var u := s[i := s[i].(deferred := false, registered := false)];
    assert Ask(u, i, ProcessTerm(s[i].o)).s[i].o.terminating;
  }

  // ---- nobody is finished and alive ----

  ghost predicate NoneFinished(s: State) { forall i <- s :: s[i].dead || !Finished(s[i].o) }

  /** All but `i`, which is about to check. */
  ghost predicate NoneElse(s: State, i: Id) { forall j <- s :: j != i ==> s[j].dead || !Finished(s[j].o) }

  lemma CheckNone(s: State, i: Id)
    requires i in s && NoneElse(s, i) && Check(s, i).Go?
    ensures NoneFinished(Check(s, i).s)
  {}

  lemma AskNone(s: State, i: Id, e: Effect)
    requires i in s && NoneElse(s, i) && Ask(s, i, e).Go?
    ensures i in Ask(s, i, e).s && NoneElse(Ask(s, i, e).s, i) && Ask(s, i, e).s[i].o == e.o && Ask(s, i, e).s[i].dead == s[i].dead
  {}

  lemma StartNone(s: State, i: Id)
    requires i in s && NoneElse(s, i) && Then(StartTerm(s, i), i).Go?
    ensures NoneFinished(Then(StartTerm(s, i), i).s)
  {
    var u := s[i := s[i].(deferred := false, registered := false)];
    AskNone(u, i, ProcessTerm(s[i].o));
    CheckNone(StartTerm(s, i).s, i);
  }

  lemma RequestNone(s: State, i: Id, c: Id)
    requires i in s && NoneFinished(s) && Ask(s, i, ProcessTermReq(s[i].o, c)).Go?
    ensures NoneFinished(Ask(s, i, ProcessTermReq(s[i].o, c)).s)
  {
    AskNone(s, i, ProcessTermReq(s[i].o, c));
  }

  lemma OwnNone(s: State, i: Id, x: Id, postpone: bool)
    requires i in s && NoneFinished(s) && Handle(s, i, OwnCmd(x), postpone).Go?
    ensures NoneFinished(Handle(s, i, OwnCmd(x), postpone).s)
  {
    var t := if s[i].o.terminating then s else s[x := s[x].(phase := Owned)];
    AskNone(t, i, ProcessOwn(t[i].o, x));
    var r := Ask(t, i, ProcessOwn(t[i].o, x));
    CheckNone(Count(r.s, i), i);
  }

  lemma TermNone(s: State, i: Id, postpone: bool)
    requires i in s && NoneFinished(s) && Handle(s, i, Term, postpone).Go?
    ensures NoneFinished(Handle(s, i, Term, postpone).s)
  {
    var t := s[i := s[i].(phase := Closing)];
    if !postpone { StartNone(t, i); }
  }

  lemma AckNone(s: State, i: Id, x: Id, postpone: bool)
    requires i in s && NoneFinished(s) && Handle(s, i, TermAck(x), postpone).Go?
    ensures NoneFinished(Handle(s, i, TermAck(x), postpone).s)
  {
    var t := s[x := s[x].(phase := Done)];
    var u := t[i := t[i].(o := UnregisterTermAck(t[i].o), wait := t[i].wait - {x})];
    CheckNone(u, i);
  }

  lemma HandleNone(s: State, i: Id, c: Cmd, postpone: bool)
    requires i in s && NoneFinished(s) && Handle(s, i, c, postpone).Go?
    ensures NoneFinished(Handle(s, i, c, postpone).s)
  {
    match c
    case Counted => CheckNone(Count(s, i), i);
    case OwnCmd(x) => OwnNone(s, i, x, postpone);
    case TermReq(x) => RequestNone(s, i, x);
    case Term => TermNone(s, i, postpone);
    case TermAck(x) => AckNone(s, i, x, postpone);
  }

  lemma UnregisterNone(s: State, i: Id)
    requires NoneFinished(s) && Next(s, Unregister(i)).Go?
    ensures NoneFinished(Next(s, Unregister(i)).s)
  {
    if Alive(s, i) && s[i].ext > 0 {
      CheckNone(s[i := s[i].(o := UnregisterTermAck(s[i].o), ext := s[i].ext - 1)], i);
    }
  }

  /** The sequence number processed last is at most that sent. */
  lemma SeqnumsOk(s: State, i: Id)
    requires Inv(s) && Alive(s, i)
    ensures s[i].o.processed <= s[i].o.sent
  {
    assert NodeOk(s, i);
  }

  lemma GrowNone(s: State, ev: Event)
    requires Inv(s) && NoneFinished(s) && Next(s, ev).Go? && (ev.Launch? || ev.Announce? || ev.Register?)
    ensures NoneFinished(Next(s, ev).s)
  {
    match ev
    case Launch(i, c, extra) => if Alive(s, i) { SeqnumsOk(s, i); }
    case Announce(src, dst) => if Alive(s, dst) { SeqnumsOk(s, dst); }
    case Register(i, n) =>
  }

  lemma NextNone(s: State, ev: Event)
    requires Inv(s) && NoneFinished(s)
    ensures Next(s, ev).Go? && NoneFinished(Next(s, ev).s)
  {
    NextOk(s, ev);
    match ev
    case NewRoot(i) =>
    case Launch(_, _, _) => GrowNone(s, ev);
    case Announce(_, _) => GrowNone(s, ev);
    case Register(_, _) => GrowNone(s, ev);
    case Bind(i) =>
    case SendCounted(dst) =>
    case AskTerm(i) => if Alive(s, i) && !s[i].o.terminating && s[i].owner.None? { StartNone(s, i); }
    case TermChild(i, c) => if Alive(s, i) { RequestNone(s, i, c); }
    case Unregister(i) => UnregisterNone(s, i);
    case Proceed(i) => if Alive(s, i) && s[i].deferred { StartNone(s, i); }
    case Deliver(i, postpone) =>
      if i in s && s[i].inbox != [] { HandleNone(Pop(s, i), i, s[i].inbox[0], postpone); }
  }

  // ---- owners come before their children ----

  /** Ranks that grow from owner to child, up to `n`. */
  ghost predicate Ranked(s: State, rank: map<Id, nat>, n: nat) {
    && rank.Keys == s.Keys && (forall i <- s :: rank[i] <= n)
    && forall c <- s :: s[c].owner.Some? ==> s[c].owner.value in s && rank[s[c].owner.value] < rank[c]
  }

  /** Nobody changes owner. */
  ghost predicate SameOwners(s: State, t: State) {
    t.Keys == s.Keys && forall i <- s :: t[i].owner == s[i].owner
  }

  lemma SameOwnersRanked(s: State, t: State, rank: map<Id, nat>, n: nat)
    requires Ranked(s, rank, n) && SameOwners(s, t)
    ensures Ranked(t, rank, n)
  {}

  lemma AskSame(s: State, i: Id, e: Effect)
    requires i in s && Ask(s, i, e).Go?
    ensures SameOwners(s, Ask(s, i, e).s)
  {}

  lemma CheckSame(s: State, i: Id)
    requires i in s && Check(s, i).Go?
    ensures SameOwners(s, Check(s, i).s)
  {}

  lemma StartSame(s: State, i: Id)
    requires i in s && Then(StartTerm(s, i), i).Go?
    ensures SameOwners(s, Then(StartTerm(s, i), i).s)
  {
    var u := s[i := s[i].(deferred := false, registered := false)];
    AskSame(u, i, ProcessTerm(s[i].o));
    CheckSame(StartTerm(s, i).s, i);
  }

  lemma OwnSame(s: State, i: Id, x: Id, postpone: bool)
    requires i in s && Handle(s, i, OwnCmd(x), postpone).Go?
    ensures SameOwners(s, Handle(s, i, OwnCmd(x), postpone).s)
  {
    var t := if s[i].o.terminating then s else s[x := s[x].(phase := Owned)];
    var u := Ask(t, i, ProcessOwn(t[i].o, x)).s;
    AskSame(t, i, ProcessOwn(t[i].o, x));
    CheckSame(Count(u, i), i);
    assert SameOwners(s, t) && SameOwners(u, Count(u, i));
  }

  lemma AckSame(s: State, i: Id, x: Id, postpone: bool)
    requires i in s && Handle(s, i, TermAck(x), postpone).Go?
    ensures SameOwners(s, Handle(s, i, TermAck(x), postpone).s)
  {
    var t := s[x := s[x].(phase := Done)];
    CheckSame(t[i := t[i].(o := UnregisterTermAck(t[i].o), wait := t[i].wait - {x})], i);
  }

  lemma HandleSame(s: State, i: Id, c: Cmd, postpone: bool)
    requires i in s && Handle(s, i, c, postpone).Go?
    ensures SameOwners(s, Handle(s, i, c, postpone).s)
  {
    match c
    case Counted => CheckSame(Count(s, i), i);
    case OwnCmd(x) => OwnSame(s, i, x, postpone);
    case TermReq(x) => AskSame(s, i, ProcessTermReq(s[i].o, x));
    case Term => if !postpone { StartSame(s[i := s[i].(phase := Closing)], i); }
    case TermAck(x) => AckSame(s, i, x, postpone);
  }

  lemma AskTermSame(s: State, i: Id)
    requires Next(s, AskTerm(i)).Go?
    ensures SameOwners(s, Next(s, AskTerm(i)).s)
  {
    if Alive(s, i) && !s[i].o.terminating && s[i].owner.None? { StartSame(s, i); }
  }

  lemma UnregisterSame(s: State, i: Id)
    requires Next(s, Unregister(i)).Go?
    ensures SameOwners(s, Next(s, Unregister(i)).s)
  {
    if Alive(s, i) && s[i].ext > 0 { CheckSame(s[i := s[i].(o := UnregisterTermAck(s[i].o), ext := s[i].ext - 1)], i); }
  }

  lemma DeliverSame(s: State, i: Id, postpone: bool)
    requires Next(s, Deliver(i, postpone)).Go?
    ensures SameOwners(s, Next(s, Deliver(i, postpone)).s)
  {
    if i in s && s[i].inbox != [] { HandleSame(Pop(s, i), i, s[i].inbox[0], postpone); }
  }

  lemma NextSame(s: State, ev: Event)
    requires Next(s, ev).Go? && !ev.NewRoot? && !ev.Launch?
    ensures SameOwners(s, Next(s, ev).s)
  {
    match ev
    case AskTerm(i) => AskTermSame(s, i);
    case TermChild(i, c) => if Alive(s, i) { AskSame(s, i, ProcessTermReq(s[i].o, c)); }
    case Unregister(i) => UnregisterSame(s, i);
    case Proceed(i) => if Alive(s, i) && s[i].deferred { StartSame(s, i); }
    case Deliver(i, postpone) => DeliverSame(s, i, postpone);
    case _ =>
  }

  lemma NextRanked(s: State, ev: Event, rank: map<Id, nat>, n: nat) returns (rank': map<Id, nat>)
    requires Ranked(s, rank, n) && Next(s, ev).Go?
    ensures Ranked(Next(s, ev).s, rank', n + 1)
  {
    rank' := rank;
    match ev
    case NewRoot(i) => if i !in s { rank' := rank[i := 0]; }
    case Launch(i, c, extra) => if Alive(s, i) && c !in s { rank' := rank[c := rank[i] + 1]; }
    case _ =>
      NextSame(s, ev);
      SameOwnersRanked(s, Next(s, ev).s, rank, n + 1);
  }

  lemma {:induction false} RunRanked(s: State, evs: seq<Event>, rank: map<Id, nat>, n: nat) returns (rank': map<Id, nat>)
    requires Inv(s) && NoneFinished(s) && Ranked(s, rank, n)
    ensures Run(s, evs).Go? && Inv(Run(s, evs).s) && NoneFinished(Run(s, evs).s)
    ensures Ranked(Run(s, evs).s, rank', n + |evs|)
    decreases |evs|
  {
    rank' := rank;
    if evs != [] {
      NextOk(s, evs[0]);
      NextNone(s, evs[0]);
      var rank1 := NextRanked(s, evs[0], rank, n);
      rank' := RunRanked(Next(s, evs[0]).s, evs[1..], rank1, n + 1);
    }
  }

  // ---- shutdown completes ----

  /** Nothing is left to deliver or to wait for from outside. */
  ghost predicate Quiet(s: State) {
    forall i <- s :: s[i].dead || (s[i].inbox == [] && s[i].credits == 0 && s[i].ext == 0 && !s[i].deferred)
  }

  /** The object is going down, or was told to. */
  predicate Ending(r: Rec) { r.o.terminating || Waited(r.phase) }

  /** A live object that is going down in a quiet tree waits for a child that is too. */
  lemma WaitsForChild(s: State, i: Id) returns (c: Id)
    requires Inv(s) && NoneFinished(s) && Quiet(s) && Alive(s, i) && s[i].o.terminating
    ensures Alive(s, c) && s[c].owner == Some(i) && s[c].o.terminating
  {
    assert NodeOk(s, i);
    assert s[i].wait != {};
    c :| c in s[i].wait;
    assert EdgeOk(s, c);
    WaitedIsTerminating(s, c);
  }

  lemma WaitedIsTerminating(s: State, c: Id)
    requires Inv(s) && Quiet(s) && c in s && s[c].owner.Some? && Waited(s[c].phase)
    requires Alive(s, s[c].owner.value)
    ensures Alive(s, c) && s[c].o.terminating
  {
    assert NodeOk(s, c) && EdgeOk(s, c);
  }

  lemma {:induction false} NobodyStuck(s: State, i: Id, rank: map<Id, nat>, n: nat)
    requires Inv(s) && NoneFinished(s) && Quiet(s) && Ranked(s, rank, n)
    requires i in s && s[i].o.terminating
    ensures s[i].dead
    decreases n - rank[i]
  {
    if !s[i].dead {
      var c := WaitsForChild(s, i);
      NobodyStuck(s, c, rank, n);
    }
  }

  lemma EndingIsDead(s: State, i: Id, rank: map<Id, nat>, n: nat)
    requires Inv(s) && NoneFinished(s) && Quiet(s) && Ranked(s, rank, n) && i in s && Ending(s[i])
    ensures s[i].dead
  {
    assert NodeOk(s, i) && EdgeOk(s, i);
    if !s[i].dead && !s[i].o.terminating {
      WaitedIsTerminating(s, i);
    }
    if s[i].o.terminating { NobodyStuck(s, i, rank, n); }
  }

  /** Main theorem: in every run, once no command is left to deliver and no outside event to wait for,
      every object that was told to terminate has been deallocated, and its whole subtree with it. */
  lemma ShutdownCompletes(evs: seq<Event>, path: seq<Id>)
    requires Run(map[], evs).Go?
    requires var s := Run(map[], evs).s; Quiet(s) && Descends(s, path) && Ending(s[path[0]])
    ensures Run(map[], evs).s[path[|path| - 1]].dead
  {
    var rank := RunRanked(map[], evs, map[], 0);
    var s := Run(map[], evs).s;
    EndingIsDead(s, path[0], rank, |evs|);
    SubtreeDead(s, path);
  }
}
