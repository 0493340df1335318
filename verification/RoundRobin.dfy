/** The round robin shared by fq_t and lb_t: active pipes sit in front of the array, the one at
    `current` is served next, and a pipe that turns out not to be ready is swapped behind them. */
module RoundRobin {
  import opened Basics
  import opened PipeArray

  datatype Ring = Ring(items: seq<Pipe>, active: nat, current: nat)

  ghost predicate RingOk(r: Ring) {
    && Distinct(r.items) && r.active <= |r.items|
    && (if r.active == 0 then r.current == 0 else r.current < r.active)
  }

  predicate IsActive(r: Ring, q: Pipe) { q in r.items[..if r.active <= |r.items| then r.active else 0] }

  /** The pipe to serve. */
  function Head(r: Ring): Pipe
    requires r.current < |r.items|
  {
    r.items[r.current]
  }

  /** The current pipe is not ready. */
  function Deactivate(r: Ring): Ring
    requires 0 < r.active <= |r.items| && r.current < r.active
  {
    Ring(Swapped(r.items, r.current, r.active - 1), r.active - 1, if r.current == r.active - 1 then 0 else r.current)
  }

  /** On to the next pipe, at the end of a message. */
  function Next(r: Ring): Ring
    requires r.active > 0
  {
    r.(current := (r.current + 1) % r.active)
  }

  lemma DeactivateOk(r: Ring)
    requires RingOk(r) && r.active > 0
    ensures RingOk(Deactivate(r))
  {
    SwapKeepsDistinct(r.items, r.current, r.active - 1);
  }

  /** Skips pipes that are not ready. */
  ghost function Settle(r: Ring, ready: set<Pipe>): (t: Ring)
    requires RingOk(r)
    ensures RingOk(t) && (t.active > 0 ==> Head(t) in ready)
    decreases r.active
  {
    if r.active == 0 || Head(r) in ready then r
    else
      DeactivateOk(r);
      Settle(Deactivate(r), ready)
  }

  // ----- How long a pipe waits -----------------------------------------------------------------

  function Find(s: seq<Pipe>, q: Pipe): (i: nat)
    requires q in s
    ensures i < |s| && s[i] == q
  {
    if s[0] == q then 0 else 1 + Find(s[1..], q)
  }

  lemma FindAt(s: seq<Pipe>, i: nat)
    requires Distinct(s) && i < |s|
    ensures s[i] in s && Find(s, s[i]) == i
  {
    var j := Find(s, s[i]);
    assert s[j] == s[i];
  }

  /** Slots from `current` round to slot `i`. */
  function Gap(r: Ring, i: nat): nat
    requires i < r.active && r.current < r.active
  {
    if i >= r.current then i - r.current else i + r.active - r.current
  }

  /** How many active pipes are before `q`. */
  ghost function Wait(r: Ring, q: Pipe): (w: nat)
    requires RingOk(r) && IsActive(r, q)
    ensures w < r.active
  {
    ActiveAt(r, q);
    Gap(r, Find(r.items, q))
  }

  lemma ActiveAt(r: Ring, q: Pipe)
    requires RingOk(r) && IsActive(r, q)
    ensures q in r.items && Find(r.items, q) < r.active
  {
    var k :| 0 <= k < r.active && r.items[..r.active][k] == q;
    FindAt(r.items, k);
  }

  lemma WaitAt(r: Ring, i: nat)
    requires RingOk(r) && i < r.active
    ensures IsActive(r, r.items[i]) && Wait(r, r.items[i]) == Gap(r, i)
  {
    assert r.items[..r.active][i] == r.items[i];
    FindAt(r.items, i);
  }

  /** A skipped pipe does not make another one wait longer, although the last active pipe jumps
      into its slot. */
  lemma DeactivateWait(r: Ring, q: Pipe)
    requires RingOk(r) && IsActive(r, q) && q != Head(r)
    ensures RingOk(Deactivate(r)) && IsActive(Deactivate(r), q) && Wait(Deactivate(r), q) <= Wait(r, q)
  {
    DeactivateOk(r);
    ActiveAt(r, q);
    var i := Find(r.items, q);
    var d := Deactivate(r);
    var j := if i == r.active - 1 then r.current else i;
    assert d.items[j] == q && j < d.active;
    WaitAt(d, j);
    WaitAt(r, i);
  }

  /** A complete message from another pipe brings it one step nearer. */
  lemma NextWait(r: Ring, q: Pipe)
    requires RingOk(r) && IsActive(r, q) && q != Head(r)
    ensures RingOk(Next(r)) && IsActive(Next(r), q) && Wait(Next(r), q) == Wait(r, q) - 1
  {
    ActiveAt(r, q);
    var i := Find(r.items, q);
    WaitAt(r, i);
    WrapAround(r.current, r.active);
    WaitAt(Next(r), i);
  }

  lemma WrapAround(c: nat, a: nat)
    requires c < a
    ensures (c + 1) % a == if c + 1 == a then 0 else c + 1
  {}

  lemma {:induction false} SettleWait(r: Ring, ready: set<Pipe>, q: Pipe)
    requires RingOk(r) && IsActive(r, q) && q in ready
    ensures IsActive(Settle(r, ready), q) && Wait(Settle(r, ready), q) <= Wait(r, q)
    decreases r.active
  {
    ActiveAt(r, q);
    if Head(r) !in ready {
      DeactivateWait(r, q);
      SettleWait(Deactivate(r), ready, q);
    }
  }

  /** Nothing is served only if no active pipe is ready. */
  lemma {:induction false} SettleFinds(r: Ring, ready: set<Pipe>)
    requires RingOk(r)
    ensures Settle(r, ready).active == 0 <==> forall q :: IsActive(r, q) ==> q !in ready
    decreases r.active
  {
    if r.active > 0 {
      if Head(r) in ready {
        WaitAt(r, r.current);
      } else {
        DeactivateOk(r);
        SettleFinds(Deactivate(r), ready);
        forall q ensures IsActive(r, q) <==> q == Head(r) || IsActive(Deactivate(r), q) { DeactivateActive(r, q); }
      }
    }
  }

  lemma DeactivateActive(r: Ring, q: Pipe)
    requires RingOk(r) && r.active > 0
    ensures IsActive(r, q) <==> q == Head(r) || IsActive(Deactivate(r), q)
    ensures !IsActive(Deactivate(r), Head(r))
  {
    SwapOut(r.items, r.current, r.active);
    InFront(r.items, r.current, r.active);
    var d := Deactivate(r);
    forall p ensures (IsActive(r, p) <==> p in Front(r.items, r.active)) && (IsActive(d, p) <==> p in Front(d.items, d.active)) {}
  }

  // ----- Turns -----------------------------------------------------------------------------------

  /** One call: the pipes ready at that moment, and whether the part served ends a message. */
  datatype Turn = Turn(ready: set<Pipe>, last: bool)

  ghost function Take(r: Ring, t: Turn): (n: Ring)
    requires RingOk(r)
    ensures RingOk(n)
  {
    var s := Settle(r, t.ready);
    if s.active > 0 && t.last then Next(s) else s
  }

  // ----- Pipes come and go -------------------------------------------------------------------------

  /** The pipe at slot `i`, behind the active ones, becomes active. */
  function Joined(r: Ring, i: nat): Ring
    requires r.active <= i < |r.items|
  {
    Ring(Swapped(r.items, i, r.active), r.active + 1, r.current)
  }

  lemma JoinedOk(r: Ring, i: nat)
    requires RingOk(r) && r.active <= i < |r.items|
    ensures RingOk(Joined(r, i))
    ensures forall q :: IsActive(Joined(r, i), q) <==> IsActive(r, q) || q == r.items[i]
    ensures forall q :: q in Joined(r, i).items <==> q in r.items
    ensures r.active > 0 ==> Head(Joined(r, i)) == Head(r)
  {
    SwapMembers(r.items, i, r.active);
    SwapKeepsDistinct(r.items, i, r.active);
    SwapIn(r.items, i, r.active);
    var d := Joined(r, i);
    forall p ensures (IsActive(r, p) <==> p in Front(r.items, r.active)) && (IsActive(d, p) <==> p in Front(d.items, d.active)) {}
  }

  /** The pipe at slot `i` leaves the active ones, if it is one of them. */
  function Left(r: Ring, i: nat): Ring
    requires i < |r.items| && r.active <= |r.items|
  {
    if i >= r.active then r
    else Ring(Swapped(r.items, i, r.active - 1), r.active - 1, if r.current == r.active - 1 then 0 else r.current)
  }

  lemma LeftOk(r: Ring, i: nat)
    requires RingOk(r) && i < |r.items|
    ensures RingOk(Left(r, i))
    ensures forall q :: IsActive(Left(r, i), q) <==> IsActive(r, q) && q != r.items[i]
    ensures forall q :: q in Left(r, i).items <==> q in r.items
    ensures Left(r, i).items[if i < r.active then r.active - 1 else i] == r.items[i]
  {
    var d := Left(r, i);
    InFront(r.items, i, r.active);
    if i < r.active {
      SwapMembers(r.items, i, r.active - 1);
      SwapKeepsDistinct(r.items, i, r.active - 1);
      SwapOut(r.items, i, r.active);
    }
    forall p ensures (IsActive(r, p) <==> p in Front(r.items, r.active)) && (IsActive(d, p) <==> p in Front(d.items, d.active)) {}
  }

  /** The pipe at slot `i`, behind the active ones, is erased. */
  function Erasing(r: Ring, i: nat): Ring
    requires i < |r.items|
  {
    r.(items := Swapped(r.items, i, |r.items| - 1)[..|r.items| - 1])
  }

  lemma ErasingOk(r: Ring, i: nat)
    requires RingOk(r) && r.active <= i < |r.items|
    ensures RingOk(Erasing(r, i)) && Erasing(r, i).items[..r.active] == r.items[..r.active]
    ensures forall q :: q in Erasing(r, i).items <==> q in r.items && q != r.items[i]
    ensures forall q :: IsActive(Erasing(r, i), q) <==> IsActive(r, q)
  {
    ErasedMembers(r.items, i);
    SwapKeepsDistinct(r.items, i, |r.items| - 1);
  }

  /** The pipe at slot `i` goes: the other active pipes stay. */
  function Gone(r: Ring, i: nat): Ring
    requires i < |r.items| && r.active <= |r.items|
  {
    Erasing(Left(r, i), if i < r.active then r.active - 1 else i)
  }

  lemma GoneOk(r: Ring, i: nat)
    requires RingOk(r) && i < |r.items|
    ensures RingOk(Gone(r, i)) && Gone(r, i).items[..Gone(r, i).active] == Left(r, i).items[..Left(r, i).active]
    ensures forall q :: q in Gone(r, i).items <==> q in r.items && q != r.items[i]
    ensures forall q :: IsActive(Gone(r, i), q) <==> IsActive(r, q) && q != r.items[i]
  {
    LeftOk(r, i);
    ErasingOk(Left(r, i), if i < r.active then r.active - 1 else i);
  }

  /** When another pipe goes, the current one stays current, except when it was the last active one
      and the slot that it is moved to is not the first. */
  lemma HeadAfterLeft(r: Ring, i: nat)
    requires RingOk(r) && i < |r.items| && r.active > 0 && i != r.current
    ensures Left(r, i).active > 0
    ensures Head(Left(r, i)) == Head(r) <==> i >= r.active || i == 0 || r.current != r.active - 1
  {}

  // ----- Runs -----------------------------------------------------------------------------------------

  /** A turn is taken, a pipe is attached, the pipe at a slot is activated or goes. */
  datatype Event = Served(turn: Turn) | Attached(pipe: Pipe) | Activated(slot: nat) | Terminated(slot: nat)

  predicate Legal(r: Ring, e: Event) {
    match e
    case Served(_) => true
    case Attached(p) => p !in r.items
    case Activated(i) => r.active <= i < |r.items|
    case Terminated(i) => i < |r.items|
  }

  ghost function After(r: Ring, e: Event): (n: Ring)
    requires RingOk(r) && Legal(r, e)
    ensures RingOk(n)
  {
    match e
    case Served(t) => Take(r, t)
    case Attached(p) =>
      JoinedOk(r.(items := r.items + [p]), |r.items|);
      Joined(r.(items := r.items + [p]), |r.items|)
    case Activated(i) => JoinedOk(r, i); Joined(r, i)
    case Terminated(i) => GoneOk(r, i); Gone(r, i)
  }

  ghost predicate LegalAll(r: Ring, es: seq<Event>)
    requires RingOk(r)
    decreases |es|
  {
    es == [] || (Legal(r, es[0]) && LegalAll(After(r, es[0]), es[1..]))
  }

  ghost function AfterAll(r: Ring, es: seq<Event>): (n: Ring)
    requires RingOk(r) && LegalAll(r, es)
    ensures RingOk(n)
    decreases |es|
  {
    if es == [] then r else AfterAll(After(r, es[0]), es[1..])
  }

  // ----- Fairness ----------------------------------------------------------------------------------

  /** When the current pipe goes, the last active one takes its slot and its turn; if the current pipe
      was the last one, the turn goes to the first. */
  lemma CurrentGone(r: Ring)
    requires RingOk(r) && r.active > 1
    ensures Gone(r, r.current).active == r.active - 1
    ensures Head(Gone(r, r.current)) == if r.current == r.active - 1 then r.items[0] else r.items[r.active - 1]
  {
    GoneOk(r, r.current);
    var g, l := Gone(r, r.current), Left(r, r.current);
    assert g.items[..g.active][g.current] == l.items[..l.active][l.current];
  }

  /** The slot of an active pipe after another one has gone. */
  function SlotAfter(r: Ring, i: nat, k: nat): nat {
    if i < r.active && k == r.active - 1 then i else k
  }

  lemma GoneSlot(r: Ring, i: nat, k: nat)
    requires RingOk(r) && i < |r.items| && k < r.active && k != i
    ensures var g := Gone(r, i); SlotAfter(r, i, k) < g.active <= |g.items| && g.items[SlotAfter(r, i, k)] == r.items[k]
  {
    GoneOk(r, i);
    var g, l, m := Gone(r, i), Left(r, i), SlotAfter(r, i, k);
    assert g.items[..g.active][m] == l.items[..l.active][m] == r.items[k];
  }

  /** A pipe that goes makes no other one wait longer, and so the current one whatever its slot; except
      that the last active pipe waits longer if one goes that sits strictly between the first slot and the
      current one, for it is moved there. */
  lemma GoneWait(r: Ring, i: nat, q: Pipe)
    requires RingOk(r) && IsActive(r, q) && i < |r.items| && r.items[i] != q
    ensures RingOk(Gone(r, i)) && IsActive(Gone(r, i), q)
    ensures Wait(Gone(r, i), q) <= Wait(r, q) <==> !(q == r.items[r.active - 1] && 0 < i < r.current)
  {
    GoneOk(r, i);
    ActiveAt(r, q);
    var k := Find(r.items, q);
    WaitAt(r, k);
    GoneSlot(r, i, k);
    WaitAt(Gone(r, i), SlotAfter(r, i, k));
    LastSlot(r, q, k);
  }

  lemma LastSlot(r: Ring, q: Pipe, k: nat)
    requires RingOk(r) && k < r.active && r.items[k] == q
    ensures q == r.items[r.active - 1] <==> k == r.active - 1
  {}

  /** A pipe that joins has those before it wait for one more at most. */
  lemma JoinedWait(r: Ring, i: nat, q: Pipe)
    requires RingOk(r) && IsActive(r, q) && r.active <= i < |r.items|
    ensures RingOk(Joined(r, i)) && IsActive(Joined(r, i), q) && Wait(Joined(r, i), q) <= Wait(r, q) + 1
  {
    JoinedOk(r, i);
    ActiveAt(r, q);
    var k := Find(r.items, q);
    WaitAt(r, k);
    assert Joined(r, i).items[k] == q;
    WaitAt(Joined(r, i), k);
  }

  lemma AttachedWait(r: Ring, p: Pipe, q: Pipe)
    requires RingOk(r) && IsActive(r, q) && p !in r.items
    ensures var u := r.(items := r.items + [p]); RingOk(u) && IsActive(u, q) && Wait(u, q) == Wait(r, q)
  {
    var u := r.(items := r.items + [p]);
    ActiveAt(r, q);
    var k := Find(r.items, q);
    WaitAt(r, k);
    assert u.items[k] == q;
    WaitAt(u, k);
  }

  /** The event passes `q` by: in a turn it is ready and another one is served, and no pipe goes that
      makes it wait longer. */
  ghost predicate PassesBy(r: Ring, e: Event, q: Pipe)
    requires RingOk(r) && Legal(r, e)
  {
    match e
    case Served(t) => q in t.ready && var s := Settle(r, t.ready); s.active > 0 ==> Head(s) != q
    case Terminated(i) =>
      r.items[i] != q && (i < r.current && 0 < i && r.active > 0 && r.active <= |r.items| ==> q != r.items[r.active - 1])
    case _ => true
  }

  ghost predicate PassesAll(r: Ring, es: seq<Event>, q: Pipe)
    requires RingOk(r) && LegalAll(r, es)
    decreases |es|
  {
    es == [] || (PassesBy(r, es[0], q) && PassesAll(After(r, es[0]), es[1..], q))
  }

  function Ends(e: Event): nat { if e.Served? && e.turn.last then 1 else 0 }

  function Adds(e: Event): nat { if e.Attached? || e.Activated? then 1 else 0 }

  /** The messages served, and the pipes that joined. */
  function Messages(es: seq<Event>): nat
    decreases |es|
  {
    if es == [] then 0 else Ends(es[0]) + Messages(es[1..])
  }

  function Joins(es: seq<Event>): nat
    decreases |es|
  {
    if es == [] then 0 else Adds(es[0]) + Joins(es[1..])
  }

  lemma TurnWait(r: Ring, t: Turn, q: Pipe)
    requires RingOk(r) && IsActive(r, q) && PassesBy(r, Served(t), q)
    ensures IsActive(Take(r, t), q) && Ends(Served(t)) + Wait(Take(r, t), q) <= Wait(r, q)
  {
    var s := Settle(r, t.ready);
    SettleWait(r, t.ready, q);
    ActiveAt(s, q);
    if t.last { NextWait(s, q); }
  }

  lemma EventWait(r: Ring, e: Event, q: Pipe)
    requires RingOk(r) && Legal(r, e) && IsActive(r, q) && PassesBy(r, e, q)
    ensures IsActive(After(r, e), q) && Ends(e) + Wait(After(r, e), q) <= Wait(r, q) + Adds(e)
  {
    match e
    case Served(t) => TurnWait(r, t, q);
    case Attached(p) => AttachedWait(r, p, q); JoinedWait(r.(items := r.items + [p]), |r.items|, q);
    case Activated(i) => JoinedWait(r, i, q);
    case Terminated(i) => GoneWait(r, i, q);
  }

  /** An active pipe that stays ready is passed over by at most as many complete messages of others as
      there are pipes before it, and one more for each pipe that joins meanwhile; so, if none does, by
      fewer than there are active pipes. Pipes that go, the current one included, do not delay it. */
  lemma {:induction false} Fairness(r: Ring, es: seq<Event>, q: Pipe)
    requires RingOk(r) && LegalAll(r, es) && IsActive(r, q) && PassesAll(r, es, q)
    ensures IsActive(AfterAll(r, es), q)
    ensures Messages(es) + Wait(AfterAll(r, es), q) <= Wait(r, q) + Joins(es)
    ensures Wait(r, q) < r.active
    decreases |es|
  {
    if es != [] {
      EventWait(r, es[0], q);
      Fairness(After(r, es[0]), es[1..], q);
    }
  }

  // ----- Parts of a message ----------------------------------------------------------------------------

  /** The current pipe stays current: it has the next part, which is not the last one, and no other
      pipe goes that would send the pointer back to the first slot. */
  ghost predicate Keeps(r: Ring, e: Event)
    requires RingOk(r) && r.active > 0
  {
    match e
    case Served(t) => !t.last && Head(r) in t.ready
    case Terminated(i) => i != r.current && (i >= r.active || i == 0 || r.current != r.active - 1)
    case _ => true
  }

  ghost predicate KeepsAll(r: Ring, es: seq<Event>)
    requires RingOk(r) && LegalAll(r, es)
    decreases |es|
  {
    es == [] || (r.active > 0 && Keeps(r, es[0]) && KeepsAll(After(r, es[0]), es[1..]))
  }

  lemma KeepsHead(r: Ring, e: Event)
    requires RingOk(r) && Legal(r, e) && r.active > 0 && Keeps(r, e)
    ensures After(r, e).active > 0 && Head(After(r, e)) == Head(r)
  {
    match e
    case Served(_) =>
    case Attached(p) => JoinedOk(r.(items := r.items + [p]), |r.items|);
    case Activated(i) => JoinedOk(r, i);
    case Terminated(i) => GoneHead(r, i);
  }

  lemma GoneHead(r: Ring, i: nat)
    requires RingOk(r) && i < |r.items| && r.active > 0 && Keeps(r, Terminated(i))
    ensures Gone(r, i).active > 0 && Head(Gone(r, i)) == Head(r)
  {
    HeadAfterLeft(r, i);
    LeftOk(r, i);
    GoneOk(r, i);
    var g, l := Gone(r, i), Left(r, i);
    assert g.items[..g.active][g.current] == l.items[..l.active][l.current];
  }

  lemma {:induction false} KeepsHeadAll(r: Ring, es: seq<Event>)
    requires RingOk(r) && LegalAll(r, es) && r.active > 0 && KeepsAll(r, es)
    ensures AfterAll(r, es).active > 0 && Head(AfterAll(r, es)) == Head(r)
    decreases |es|
  {
    if es != [] {
      KeepsHead(r, es[0]);
      KeepsHeadAll(After(r, es[0]), es[1..]);
    }
  }

  /** All parts of a message come from the pipe that the first one came from, whatever pipes are
      attached, activated or, as far as that keeps the current one, go in between. */
  lemma PartsTogether(r: Ring, first: Turn, es: seq<Event>, later: Turn)
    requires RingOk(r) && !first.last && Settle(r, first.ready).active > 0
    requires LegalAll(Take(r, first), es) && KeepsAll(Take(r, first), es)
    requires Head(Settle(r, first.ready)) in later.ready
    ensures var s := Settle(AfterAll(Take(r, first), es), later.ready);
      s.active > 0 && Head(s) == Head(Settle(r, first.ready))
  {
    KeepsHeadAll(Take(r, first), es);
  }

  /** Three pipes are attached, and the first two give a message each. */
  function TwoMessages(a: Pipe, b: Pipe, c: Pipe): seq<Event> {
    [Attached(a), Attached(b), Attached(c), Served(Turn({a, b, c}, true)), Served(Turn({a, b, c}, true))]
  }

  lemma TwoMessagesServed(a: Pipe, b: Pipe, c: Pipe)
    requires a != b && b != c && a != c
    ensures LegalAll(Ring([], 0, 0), TwoMessages(a, b, c))
    ensures AfterAll(Ring([], 0, 0), TwoMessages(a, b, c)) == Ring([a, b, c], 3, 2)
  {
    var t := Served(Turn({a, b, c}, true));
    TurnsServed(a, b, c, t);
    AttachNext([a, b], c, [a, b, c], [t, t], [Attached(c), t, t]);
    AttachNext([a], b, [a, b], [Attached(c), t, t], [Attached(b), Attached(c), t, t]);
    AttachNext([], a, [a], [Attached(b), Attached(c), t, t], TwoMessages(a, b, c));
  }

  lemma TurnsServed(a: Pipe, b: Pipe, c: Pipe, t: Event)
    requires a != b && b != c && a != c && t == Served(Turn({a, b, c}, true))
    ensures RingOk(Ring([a, b, c], 3, 0)) && LegalAll(Ring([a, b, c], 3, 0), [t, t])
    ensures AfterAll(Ring([a, b, c], 3, 0), [t, t]) == Ring([a, b, c], 3, 2)
  {
    Then(Ring([a, b, c], 3, 1), t, [], Ring([a, b, c], 3, 2));
    Then(Ring([a, b, c], 3, 0), t, [t], Ring([a, b, c], 3, 1));
  }

  /** A pipe attached when all are active. */
  lemma AttachNext(items: seq<Pipe>, p: Pipe, next: seq<Pipe>, es: seq<Event>, all: seq<Event>)
    requires next == items + [p] && Distinct(next) && LegalAll(Ring(next, |next|, 0), es)
    requires all == [Attached(p)] + es
    ensures RingOk(Ring(items, |items|, 0)) && LegalAll(Ring(items, |items|, 0), all)
    ensures AfterAll(Ring(items, |items|, 0), all) == AfterAll(Ring(next, |next|, 0), es)
  {
    forall i, j | 0 <= i < j < |items| ensures items[i] != items[j] { assert next[i] != next[j]; }
    forall i | 0 <= i < |items| ensures items[i] != p { assert next[i] != next[|items|]; }
    SwapSelf(next, |items|);
    Then(Ring(items, |items|, 0), Attached(p), es, Ring(next, |next|, 0));
  }

  lemma Then(r: Ring, e: Event, es: seq<Event>, n: Ring)
    requires RingOk(r) && Legal(r, e) && After(r, e) == n && LegalAll(n, es)
    ensures LegalAll(r, [e] + es) && AfterAll(r, [e] + es) == AfterAll(n, es)
  {
    assert ([e] + es)[1..] == es;
  }

  /** The second of the three pipes goes in the middle of a message from the third: the rest of that
      message is taken from the first. */
  lemma HeadIsLost(a: Pipe, b: Pipe, c: Pipe, first: Turn, later: Turn)
    requires a != b && b != c && a != c
    requires !first.last && c in first.ready && a in later.ready
    ensures LegalAll(Ring([], 0, 0), TwoMessages(a, b, c))
    ensures var r := AfterAll(Ring([], 0, 0), TwoMessages(a, b, c));
      && r == Ring([a, b, c], 3, 2) && Settle(r, first.ready) == r && Head(r) == c
      && Take(r, first) == r && Legal(r, Terminated(1))
      && var n := After(r, Terminated(1)); n == Ring([a, c], 2, 0) && Settle(n, later.ready) == n && Head(n) == a
  {
    TwoMessagesServed(a, b, c);
    var r := Ring([a, b, c], 3, 2);
    assert Take(r, first) == r;
    assert Left(r, 1) == Ring([a, c, b], 2, 0);
    assert Gone(r, 1) == Ring([a, c], 2, 0);
  }
}
