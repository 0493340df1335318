/** The two ends of a pipe pair, the two FIFO command channels between them and
    the queues of both directions.  A hiccup makes the reader open a new queue, so a
    direction holds a list of queues and the set of those already freed. */
module PipePair {
  import opened Basics
  import opened PipeEnd

  /** One end together with what a run remembers about it: how many pipe_term and
      pipe_term_ack it sent, whether it has handled the peer's pipe_term, the queue it wrote
      to when it sent pipe_term, the whole messages it wrote and the parts it read. */
  datatype Node = Node(
    e: End, alive: bool, inIx: nat, outIx: Option<nat>,
    terms: nat, acks: nat, gotTerm: bool, termIx: Option<nat>,
    committed: seq<Frame>, delivered: seq<Frame>)

  datatype Dir = Dir(qs: seq<Queue>, freed: set<nat>)

  /** `lr` is written by the left end and read by the right one; `toL` carries the
      commands sent to the left end. */
  datatype Sys = Sys(l: Node, r: Node, toL: seq<Cmd>, toR: seq<Cmd>, lr: Dir, rl: Dir)

  datatype Event =
    | DoCheckRead
    | DoRead
    | DoCheckWrite
    | DoWrite(more: bool, identity: bool, body: int)
    | DoRollback
    | DoFlush
    | DoHiccup
    | DoSetNoDelay
    | DoTerminate(delay: bool)
    | Deliver

  datatype Side = L | R
  datatype Move = Move(side: Side, ev: Event)

  /** Fault: a failed assertion, a command for a deallocated end, or the use of a freed queue. */
  datatype Step = Go(s: Sys) | Fault

  function Flip(s: Sys): Sys { Sys(s.r, s.l, s.toR, s.toL, s.rl, s.lr) }

  function InitNode(inHwm: int, outHwm: int): Node {
    Node(NewEnd(inHwm, outHwm), true, 0, Some(0), 0, 0, false, None, [], [])
  }

  /** pipepair: hwmLR bounds the left-to-right direction. */
  function Init(hwmLR: int, hwmRL: int): Sys {
    Sys(InitNode(hwmRL, hwmLR), InitNode(hwmLR, hwmRL), [], [], Dir([EMPTY_QUEUE], {}), Dir([EMPTY_QUEUE], {}))
  }

  function CountCmd(cs: seq<Cmd>, c: Cmd): nat { multiset(cs)[c] }

  /** The left end points at queues that exist and have not been freed. */
  predicate Pointers(s: Sys) {
    && s.l.inIx < |s.rl.qs| && s.l.inIx !in s.rl.freed
    && (s.l.outIx.Some? ==> s.l.outIx.value < |s.lr.qs| && s.l.outIx.value !in s.lr.freed)
  }

  function ViewL(s: Sys): View
    requires Pointers(s)
  {
    View(s.l.e, s.rl.qs[s.l.inIx], if s.l.outIx.Some? then Some(s.lr.qs[s.l.outIx.value]) else None)
  }

  /** Write the outcome of an operation of the left end back into the system. */
  function Put(s: Sys, v: View, sent: seq<Cmd>): Sys
    requires Pointers(s)
    requires v.outq.Some? ==> s.l.outIx.Some?
  {
    var terms := CountCmd(sent, PipeTerm);
    s.(l := s.l.(e := v.e,
                 outIx := if v.outq.Some? then s.l.outIx else None,
                 terms := s.l.terms + terms,
                 acks := s.l.acks + CountCmd(sent, PipeTermAck),
                 termIx := if terms > 0 then s.l.outIx else s.l.termIx),
       toR := s.toR + sent,
       lr := if v.outq.Some? then s.lr.(qs := s.lr.qs[s.l.outIx.value := v.outq.value]) else s.lr,
       rl := s.rl.(qs := s.rl.qs[s.l.inIx := v.inq]))
  }

  lemma PutSame(s: Sys)
    requires Pointers(s)
    ensures Put(s, ViewL(s), []) == s
  {
    assert s.toR + [] == s.toR;
  }

  function Finish(s: Sys, o: Outcome): Step
    requires Pointers(s)
    requires o.Ok? && o.v.outq.Some? ==> s.l.outIx.Some?
  {
    match o
    case AssertFailed => Fault
    case Ok(v, sent) => Go(Put(s, v, sent))
  }

  function WriteL(s: Sys, f: Frame): Step
    requires Pointers(s)
  {
    var v := ViewL(s);
    var (w, ok) := Write(v, f);
    if w.None? then Fault
    else
      var s' := Put(s, w.value, []);
      if ok && !(f.Part? && f.more) && v.outq.Some? then
        Go(s'.(l := s'.l.(committed := s'.l.committed + v.outq.value.partial + [f])))
      else Go(s')
  }

  function HiccupL(s: Sys): Sys
    requires Pointers(s)
  {
    if s.l.e.phase != Active then s
    else
      s.(l := s.l.(e := s.l.e.(inActive := true), inIx := |s.rl.qs|),
         rl := s.rl.(qs := s.rl.qs + [EMPTY_QUEUE]),
         toR := s.toR + [Hiccup(|s.rl.qs|)])
  }

  /** The left end switches to outbound queue `k`, having drained and freed the one it had. */
  function Switch(s: Sys, e: End, k: nat): Sys
    requires s.l.outIx.Some?
  {
    s.(l := s.l.(e := e, outIx := Some(k)), lr := s.lr.(freed := s.lr.freed + {s.l.outIx.value}))
  }

  /** The left end is deallocated with the queue it read. */
  function Bury(s: Sys): Sys {
    s.(l := s.l.(alive := false, outIx := None), rl := s.rl.(freed := s.rl.freed + {s.l.inIx}))
  }

  /** The left end handles `c`, already removed from its channel. */
  function HandleL(s: Sys, c: Cmd): Step
    requires Pointers(s)
  {
    var v := ViewL(s);
    match c
    case ActivateRead => Go(Put(s, ProcessActivateRead(v), []))
    case ActivateWrite(n) => Go(Put(s, ProcessActivateWrite(v, n), []))
    case Hiccup(k) =>
      if k >= |s.lr.qs| || k in s.lr.freed then Fault
      else
        var o := ProcessHiccup(v, s.lr.qs[k]);
        if o.AssertFailed? then Fault else Go(Switch(s, o.v.e, k))
    case PipeTerm =>
      var r := Finish(s, ProcessPipeTerm(v));
      if r.Fault? then Fault
      else Go(r.s.(l := r.s.l.(gotTerm := true)))
    case PipeTermAck =>
      var r := Finish(s, ProcessPipeTermAck(v));
      if r.Fault? then Fault else Go(Bury(r.s))
  }

  /** One event of the left end.  Users never touch an end after it was deallocated. */
  function StepL(s: Sys, ev: Event): Step {
    if !s.l.alive then (if ev.Deliver? && s.toL != [] then Fault else Go(s))
    else if !Pointers(s) then Fault
    else
      var v := ViewL(s);
      match ev
      case DoCheckRead => var r := CheckRead(v); Go(Put(s, r.v, r.sent))
      case DoRead =>
        var r := Read(v);
        var s' := Put(s, r.v, r.sent);
        Go(if r.got.Some? then s'.(l := s'.l.(delivered := s'.l.delivered + [r.got.value])) else s')
      case DoCheckWrite => Go(Put(s, CheckWrite(v).0, []))
      case DoWrite(m, i, b) => WriteL(s, Part(m, i, b))
      case DoRollback => Finish(s, Rollback(v))
      case DoFlush => var (u, sent) := Flush(v); Go(Put(s, u, sent))
      case DoHiccup => Go(HiccupL(s))
      case DoSetNoDelay => Go(s.(l := s.l.(e := s.l.e.(delay := false))))
      case DoTerminate(d) => Finish(s, Terminate(v, d))
      case Deliver => if s.toL == [] then Go(s) else HandleL(s.(toL := s.toL[1..]), s.toL[0])
  }

  function FlipStep(r: Step): Step { if r.Go? then Go(Flip(r.s)) else Fault }

  function StepS(s: Sys, m: Move): Step {
    if m.side == L then StepL(s, m.ev) else FlipStep(StepL(Flip(s), m.ev))
  }

  function Run(s: Sys, ms: seq<Move>): Step
    decreases |ms|
  {
    if ms == [] then Go(s)
    else
      match StepS(s, ms[0])
      case Fault => Fault
      case Go(s') => Run(s', ms[1..])
  }
}
