/** The delay flag: an end without it acknowledges termination at once and needs nobody to read, an
    end with it acknowledges only after the delimiter. */
module PipeDelay {
  import opened Basics
  import opened PipeEnd
  import opened PipePair
  import opened PipeSafety
  import opened PipeClose

  // ---- without delay ----

  /** The end does not wait for a delimiter, and will not. */
  predicate Prompt(n: Node) {
    n.alive ==> n.e.phase != WaitingForDelimiter && (n.e.phase == Active ==> !n.e.delay)
  }

  lemma HandleKeepsPrompt(s: Sys, c: Cmd)
    requires Ready(s) && Prompt(s.l) && HandleL(s, c).Go?
    ensures Prompt(HandleL(s, c).s.l) && HandleL(s, c).s.r == s.r
  {}

  lemma UserKeepsPrompt(s: Sys, ev: Event)
    requires Ready(s) && Prompt(s.l) && StepL(s, ev).Go? && !ev.Deliver? && !ev.DoTerminate?
    ensures Prompt(StepL(s, ev).s.l) && StepL(s, ev).s.r == s.r
  {}

  lemma TerminateKeepsPrompt(s: Sys, delay: bool)
    requires Ready(s) && Prompt(s.l) && StepL(s, DoTerminate(delay)).Go?
    ensures Prompt(StepL(s, DoTerminate(delay)).s.l) && StepL(s, DoTerminate(delay)).s.r == s.r
  {
    var u := ViewL(s).(e := s.l.e.(delay := delay));
    if u.outq.Some? { DelimiterViews(u.(e := u.e.(phase := TermReqSent1)), [PipeTerm]); }
  }

  lemma StepLKeepsPrompt(s: Sys, ev: Event)
    requires Inv(s) && Prompt(s.l) && StepL(s, ev).Go?
    ensures Prompt(StepL(s, ev).s.l) && StepL(s, ev).s.r == s.r
  {
    if s.l.alive {
      InvReady(s);
      match ev
      case Deliver => if s.toL != [] { HandleKeepsPrompt(s.(toL := s.toL[1..]), s.toL[0]); }
      case DoTerminate(d) => TerminateKeepsPrompt(s, d);
      case _ => UserKeepsPrompt(s, ev);
    }
  }

  lemma StepKeepsPrompt(s: Sys, m: Move, side: Side)
    requires Inv(s) && Prompt(Me(s, side)) && StepS(s, m).Go?
    ensures Prompt(Me(StepS(s, m).s, side))
  {
    var u := if m.side == L then s else Flip(s);
    StepOk(s, m);
    assert Inv(u) && Flip(Flip(s)) == s;
    if m.side == side { StepLKeepsPrompt(u, m.ev); } else { StepLPeer(u, m.ev); }
  }

  /** Once an end without delay is active it never waits for a delimiter, whatever either end does. */
  lemma {:induction false} NeverWaits(s: Sys, ms: seq<Move>, side: Side)
    requires Inv(s) && Prompt(Me(s, side))
    ensures Run(s, ms).Go? && Prompt(Me(Run(s, ms).s, side))
    decreases |ms|
  {
    if ms != [] {
      StepOk(s, ms[0]);
      StepKeepsPrompt(s, ms[0], side);
      NeverWaits(StepS(s, ms[0]).s, ms[1..], side);
    }
  }

  /** Both ends are without delay. */
  predicate PromptPair(s: Sys) { Prompt(s.l) && Prompt(s.r) }

  /** A schedule that only delivers commands, each of which is there. */
  ghost predicate DeliverRun(s: Sys, ms: seq<Move>)
    decreases |ms|
  {
    ms == [] || (
      && ms[0].ev.Deliver? && Inbox(s, ms[0].side) != []
      && StepS(s, ms[0]).Go? && DeliverRun(StepS(s, ms[0]).s, ms[1..]))
  }

  lemma {:induction false} DeliveriesDrain(s: Sys, ms: seq<Move>)
    requires DeliverRun(s, ms)
    ensures DrainRun(s, ms)
    decreases |ms|
  {
    if ms != [] { DeliveriesDrain(StepS(s, ms[0]).s, ms[1..]); }
  }

  /** From the moment that both ends are active and without delay: once either has been told to
      terminate, delivering commands is enough. Whoever stops reading, every schedule of deliveries is
      bounded, and when no command is left both ends are deallocated. */
  lemma PromptPairCloses(hwmLR: int, hwmRL: int, before: seq<Move>, a: Sys, ms: seq<Move>, s: Sys, ds: seq<Move>, t: Sys)
    requires Reached(hwmLR, hwmRL, before, a) && Untouched(a) && !a.l.e.delay && !a.r.e.delay
    requires Run(a, ms) == Go(s) && !Untouched(s)
    requires DeliverRun(s, ds) && Run(s, ds) == Go(t)
    ensures |ds| <= Measure(s)
    ensures t.toL == [] && t.toR == [] ==> Closed(t)
  {
    ReachedCloses(hwmLR, hwmRL, before, a);
    RunCloses(a, ms);
    NeverWaits(a, ms, L);
    NeverWaits(a, ms, R);
    PromptPairDrains(s, ds, t);
  }

  lemma PromptPairDrains(s: Sys, ds: seq<Move>, t: Sys)
    requires CloseInv(s) && PromptPair(s) && !Untouched(s)
    requires DeliverRun(s, ds) && Run(s, ds) == Go(t)
    ensures |ds| <= Measure(s)
    ensures t.toL == [] && t.toR == [] ==> Closed(t)
  {
    DeliveriesDrain(s, ds);
    DrainBounded(s, ds);
    NeverWaits(s, ds, L);
    NeverWaits(s, ds, R);
    if t.toL == [] && t.toR == [] { PromptQuiet(s, t); }
  }

  lemma PromptQuiet(s: Sys, t: Sys)
    requires CloseInv(t) && PromptPair(t) && t.toL == [] && t.toR == []
    requires !Untouched(s) && Rank(t.l) <= Rank(s.l) && Rank(t.r) <= Rank(s.r)
    ensures Closed(t)
  {
    QuietShape(t);
    StaysTouched(s, t);
  }

  // ---- when acknowledgements are sent ----

  /** The left end reads the delimiter. */
  predicate TakesDelimiter(s: Sys, ev: Event) {
    && s.l.alive && Pointers(s) && (ev.DoRead? || ev.DoCheckRead?)
    && s.l.e.inActive && Readable(s.l.e.phase)
    && var q := ViewL(s).inq; !q.asleep && q.flushed != [] && q.flushed[0] == Delimiter
  }

  /** The four occasions for an acknowledgement. */
  predicate Acknowledges(s: Sys, ev: Event) {
    || (ev.Deliver? && s.toL != [] && s.toL[0].PipeTerm? && (s.l.e.phase != Active || !s.l.e.delay))
    || (ev.Deliver? && s.toL != [] && s.toL[0].PipeTermAck? && s.l.e.phase == TermReqSent1)
    || (TakesDelimiter(s, ev) && s.l.e.phase == WaitingForDelimiter)
    || (ev == DoTerminate(false) && s.l.e.phase == WaitingForDelimiter)
  }

  function Acks(s: Sys, ev: Event): nat { if Acknowledges(s, ev) then 1 else 0 }

  lemma HandleAcks(s: Sys, c: Cmd)
    requires Ready(s) && HandleL(s, c).Go?
    ensures HandleL(s, c).s.l.acks == s.l.acks
      + if (c.PipeTerm? && (s.l.e.phase != Active || !s.l.e.delay)) || (c.PipeTermAck? && s.l.e.phase == TermReqSent1) then 1 else 0
  {}

  lemma ReadAcks(s: Sys, ev: Event)
    requires Ready(s) && StepL(s, ev).Go? && (ev.DoRead? || ev.DoCheckRead?)
    ensures StepL(s, ev).s.l.acks == s.l.acks + Acks(s, ev)
  {}

  /** What terminate sends, besides waking the reader. */
  lemma TerminateSends(v: View, delay: bool)
    requires v.outq.Some? ==> AllMore(v.outq.value.partial)
    requires v.e.phase == Active || v.e.phase == DelimiterReceived || v.e.phase == WaitingForDelimiter ==> v.outq.Some?
    ensures var o := Terminate(v, delay);
      && o.Ok? && (o.v.outq.Some? ==> v.outq.Some?)
      && CountCmd(o.sent, PipeTermAck) == (if v.e.phase == WaitingForDelimiter && !delay then 1 else 0)
      && CountCmd(o.sent, PipeTerm) == (if v.e.phase == Active || v.e.phase == DelimiterReceived then 1 else 0)
  {
    var u := v.(e := v.e.(delay := delay));
    if v.e.phase == Active || v.e.phase == DelimiterReceived {
      DelimiterViews(u.(e := u.e.(phase := TermReqSent1)), [PipeTerm]);
    } else if v.e.phase == WaitingForDelimiter && delay {
      DelimiterViews(u, []);
    }
  }

  lemma TerminateAcks(s: Sys, delay: bool)
    requires Ready(s) && StepL(s, DoTerminate(delay)).Go?
    ensures StepL(s, DoTerminate(delay)).s.l.acks == s.l.acks + Acks(s, DoTerminate(delay))
    ensures StepL(s, DoTerminate(delay)).s.l.terms == s.l.terms
      + if s.l.e.phase == Active || s.l.e.phase == DelimiterReceived then 1 else 0
  {
    TerminateSends(ViewL(s), delay);
  }

  lemma OtherAcks(s: Sys, ev: Event)
    requires Ready(s) && StepL(s, ev).Go? && !ev.DoRead? && !ev.DoCheckRead? && !ev.Deliver? && !ev.DoTerminate?
    ensures StepL(s, ev).s.l.acks == s.l.acks
  {}

  /** An end acknowledges exactly when it is asked to terminate and is not an active end with delay,
      when it is acknowledged before it was asked, when it reads the delimiter that it waits for, and when
      it gives that up. */
  lemma AckSentExactly(s: Sys, ev: Event)
    requires Inv(s) && s.l.alive
    ensures StepL(s, ev).Go? && StepL(s, ev).s.l.acks == s.l.acks + Acks(s, ev)
  {
    StepLOk(s, ev);
    InvReady(s);
    match ev
    case Deliver => if s.toL != [] { HandleAcks(s.(toL := s.toL[1..]), s.toL[0]); }
    case DoTerminate(d) => TerminateAcks(s, d);
    case DoRead => ReadAcks(s, ev);
    case DoCheckRead => ReadAcks(s, ev);
    case _ => OtherAcks(s, ev);
  }

  /** After terminate the request is out, unless the peer's came first. */
  lemma TerminateIsHeard(s: Sys, delay: bool)
    requires Inv(s) && s.l.alive
    ensures StepL(s, DoTerminate(delay)).Go?
    ensures StepL(s, DoTerminate(delay)).s.l.terms == if s.l.gotTerm then s.l.terms else 1
  {
    StepLOk(s, DoTerminate(delay));
    InvReady(s);
    TerminateAcks(s, delay);
  }

  /** An active end without delay answers a request at once: the acknowledgement goes out, and it lets go
      of the queue it writes. */
  lemma PromptAnswer(s: Sys)
    requires Inv(s) && s.l.alive && s.l.e.phase == Active && !s.l.e.delay && s.toL != [] && s.toL[0].PipeTerm?
    ensures StepL(s, Deliver).Go?
    ensures var t := StepL(s, Deliver).s;
      && t.toR == s.toR + [PipeTermAck] && t.l.acks == s.l.acks + 1 && t.l.outIx.None?
      && t.l.e.phase != WaitingForDelimiter
  {
    StepLOk(s, Deliver);
    InvReady(s);
    AckSentExactly(s, Deliver);
  }

  // ---- with delay ----

  /** An active end with delay has not acknowledged, and waits if it was asked to terminate. */
  predicate Patient(n: Node) {
    && n.alive && n.acks == 0
    && (n.e.phase == WaitingForDelimiter || (n.e.phase == Active && n.e.delay))
  }

  /** The left end keeps its delay, is not told to terminate, and the delimiter is not read. */
  predicate Bears(s: Sys, ev: Event) {
    !ev.DoTerminate? && !ev.DoSetNoDelay? && !TakesDelimiter(s, ev)
  }

  /** So does the end on `side` all through a run. */
  ghost predicate BearsRun(s: Sys, ms: seq<Move>, side: Side)
    decreases |ms|
  {
    ms == [] || (
      && (ms[0].side == side ==> Bears(if side == L then s else Flip(s), ms[0].ev))
      && StepS(s, ms[0]).Go? && BearsRun(StepS(s, ms[0]).s, ms[1..], side))
  }

  lemma HandleKeepsPatient(s: Sys, c: Cmd)
    requires Ready(s) && Patient(s.l) && HandleL(s, c).Go?
    ensures Patient(HandleL(s, c).s.l)
  {}

  lemma UserKeepsPatient(s: Sys, ev: Event)
    requires Ready(s) && Patient(s.l) && StepL(s, ev).Go? && !ev.Deliver? && Bears(s, ev)
    ensures Patient(StepL(s, ev).s.l)
  {}

  lemma StepKeepsPatient(s: Sys, m: Move, side: Side)
    requires Inv(s) && Patient(Me(s, side)) && StepS(s, m).Go?
    requires m.side == side ==> Bears(if side == L then s else Flip(s), m.ev)
    ensures Patient(Me(StepS(s, m).s, side))
  {
    var u := if m.side == L then s else Flip(s);
    assert Inv(u) && Flip(Flip(s)) == s;
    if m.side != side {
      StepLPeer(u, m.ev);
    } else {
      InvReady(u);
      if m.ev.Deliver? {
        if u.toL != [] { HandleKeepsPatient(u.(toL := u.toL[1..]), u.toL[0]); }
      } else {
        UserKeepsPatient(u, m.ev);
      }
    }
  }

  /** An active end with delay sends no acknowledgement before it has read the delimiter, unless it is
      told to terminate itself or not to delay. */
  lemma {:induction false} NoAckBeforeDelimiter(s: Sys, ms: seq<Move>, side: Side)
    requires Inv(s) && Patient(Me(s, side)) && BearsRun(s, ms, side)
    ensures Run(s, ms).Go? && Me(Run(s, ms).s, side).acks == 0 && Patient(Me(Run(s, ms).s, side))
    decreases |ms|
  {
    if ms != [] {
      StepOk(s, ms[0]);
      StepKeepsPatient(s, ms[0], side);
      NoAckBeforeDelimiter(StepS(s, ms[0]).s, ms[1..], side);
    }
  }

  /** This is what a pipe does by default: before the delimiter is read neither end acknowledges, as long as it
      is not told to terminate or not to delay. */
  lemma DelimiterFirst(hwmLR: int, hwmRL: int, ms: seq<Move>, side: Side)
    requires BearsRun(Init(hwmLR, hwmRL), ms, side)
    ensures Run(Init(hwmLR, hwmRL), ms).Go? && Me(Run(Init(hwmLR, hwmRL), ms).s, side).acks == 0
  {
    InitOk(hwmLR, hwmRL);
    NoAckBeforeDelimiter(Init(hwmLR, hwmRL), ms, side);
  }
}
