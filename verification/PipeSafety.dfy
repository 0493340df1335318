/** Handshake safety of the pipe pair for every interleaving, hiccups included. */
module PipeSafety {
  import opened Basics
  import opened PipeEnd
  import opened PipePair

  /** What the commands sent so far say about their sender: whether pipe_term and
      pipe_term_ack are among them, and the newest queue announced by a hiccup. */
  datatype Scanned = St(termed: bool, acked: bool, ix: nat) | Bad

  /** The order the sender keeps: hiccups, then at most one pipe_term, then at most
      one pipe_term_ack, and nothing after that. */
  function ScanCmd(st: Scanned, c: Cmd): Scanned {
    if st.Bad? || st.acked then Bad
    else
      match c
      case PipeTerm => if st.termed then Bad else st.(termed := true)
      case PipeTermAck => st.(acked := true)
      case Hiccup(k) => if st.termed || k != st.ix + 1 then Bad else st.(ix := k)
      case _ => st
  }

  function Scan(cs: seq<Cmd>, st: Scanned): Scanned
    decreases |cs|
  {
    if cs == [] then st else Scan(cs[1..], ScanCmd(st, cs[0]))
  }

  lemma {:induction false} ScanAppend(cs: seq<Cmd>, ds: seq<Cmd>, st: Scanned)
    ensures Scan(cs + ds, st) == Scan(ds, Scan(cs, st))
    decreases |cs|
  {
    if cs == [] {
      assert cs + ds == ds;
    } else {
      assert (cs + ds)[1..] == cs[1..] + ds;
      ScanAppend(cs[1..], ds, ScanCmd(st, cs[0]));
    }
  }

  lemma {:induction false} ScanBad(cs: seq<Cmd>)
    ensures Scan(cs, Bad) == Bad
    decreases |cs|
  {
    if cs != [] { ScanBad(cs[1..]); }
  }

  /** Once the acknowledgement is next, it is the last command in the channel. */
  lemma AckIsLast(cs: seq<Cmd>, st: Scanned)
    requires st.St? && st.acked && Scan(cs, st) != Bad
    ensures cs == []
  {
    if cs != [] { ScanBad(cs[1..]); }
  }

  predicate Activation(c: Cmd) { c.ActivateRead? || c.ActivateWrite? }

  function OutIx(s: Sys): nat { if s.l.outIx.Some? then s.l.outIx.value else s.r.inIx }

  /** The local facts of one end. */
  predicate NodeOk(n: Node) {
    && n.terms <= 1 && n.acks <= 1
    && (n.alive ==>
          && (n.terms == 1 <==> n.e.phase == TermReqSent1 || n.e.phase == TermReqSent2)
          && (n.acks == 1 <==> n.e.phase == TermAckSent || n.e.phase == TermReqSent2)
          && (n.gotTerm <==> n.e.phase == WaitingForDelimiter || n.e.phase == TermAckSent || n.e.phase == TermReqSent2)
          && (n.outIx.None? <==> n.acks == 1))
    && (!n.alive ==> n.acks == 1 && n.outIx.None?)
  }

  /** What the channel to the left end says, read by the left end, is what the right end did. */
  predicate ChannelOk(s: Sys) {
    if s.l.alive then
      && Scan(s.toL, St(s.l.gotTerm, false, OutIx(s))) == St(s.r.terms == 1, s.r.acks == 1, s.r.inIx)
      && (s.l.gotTerm ==> s.r.terms == 1)
    else s.toL == [] && s.r.acks == 1
  }

  /** The queues written by the left end: which exist and exactly which are freed. */
  ghost predicate QueuesOk(s: Sys) {
    && |s.lr.qs| == s.r.inIx + 1
    && OutIx(s) <= s.r.inIx
    && (forall k: nat :: k in s.lr.freed <==> k < OutIx(s) + if s.r.alive then 0 else 1)
    && (!s.r.alive ==> s.l.outIx.None?)
    && forall q <- s.lr.qs :: AllMore(q.partial)
  }

  ghost predicate Half(s: Sys) { NodeOk(s.l) && ChannelOk(s) && QueuesOk(s) }

  ghost predicate Inv(s: Sys) { Half(s) && Half(Flip(s)) }

  lemma InitOk(hwmLR: int, hwmRL: int)
    ensures Inv(Init(hwmLR, hwmRL))
  {
  }

  lemma PointersOk(s: Sys)
    requires Inv(s) && s.l.alive
    ensures Pointers(s)
  {
    assert Half(Flip(s));
  }

  /** Sending commands appends to the scan of the channel. */
  lemma Sent(s: Sys, cs: seq<Cmd>)
    requires Half(Flip(s)) && s.r.alive
    ensures Scan(s.toR + cs, St(s.r.gotTerm, false, OutIx(Flip(s))))
         == Scan(cs, St(s.l.terms == 1, s.l.acks == 1, s.l.inIx))
  {
    ScanAppend(s.toR, cs, St(s.r.gotTerm, false, OutIx(Flip(s))));
  }

  lemma {:induction false} ScanActivations(cs: seq<Cmd>, st: Scanned)
    requires st.St? && !st.acked && forall c <- cs :: Activation(c)
    ensures Scan(cs, st) == st
    decreases |cs|
  {
    if cs != [] {
      assert Activation(cs[0]);
      ScanActivations(cs[1..], st);
    }
  }

  lemma NoTermInActivations(cs: seq<Cmd>)
    requires forall c <- cs :: Activation(c)
    ensures CountCmd(cs, PipeTerm) == 0 && CountCmd(cs, PipeTermAck) == 0
  {
    assert PipeTerm !in cs && PipeTermAck !in cs;
  }

  /** After pipe_term the sender announces no more queues. */
  lemma {:induction false} ScanTermed(cs: seq<Cmd>, st: Scanned)
    requires st.St? && st.termed && Scan(cs, st) != Bad
    ensures Scan(cs, st).termed && Scan(cs, st).ix == st.ix
    decreases |cs|
  {
    if cs != [] {
      ScanBad(cs[1..]);
      ScanTermed(cs[1..], ScanCmd(st, cs[0]));
    }
  }

  /** An operation that leaves the handshake where it is and sends only activations. */
  lemma QuietPut(s: Sys, v: View, sent: seq<Cmd>)
    requires Inv(s) && s.l.alive && Pointers(s)
    requires NodeOk(s.l.(e := v.e)) && v.outq.Some? == s.l.outIx.Some?
    requires AllMore(v.inq.partial) && (v.outq.Some? ==> AllMore(v.outq.value.partial))
    requires forall c <- sent :: Activation(c)
    requires sent != [] ==> s.l.acks == 0
    ensures Inv(Put(s, v, sent))
  {
    var t := Put(s, v, sent);
    NoTermInActivations(sent);
    if sent != [] {
      assert s.r.alive;
      Sent(s, sent);
      ScanActivations(sent, St(s.l.terms == 1, s.l.acks == 1, s.l.inIx));
    } else {
      assert s.toR + sent == s.toR;
    }
    assert Half(t);
    assert Half(Flip(t));
  }

  /** The left end has taken the peer's pipe_term and everything the peer sent before it. */
  predicate Asked(s: Sys) {
    && s.l.alive && s.r.terms == 1
    && Scan(s.toL, St(true, false, s.r.inIx)) == St(true, s.r.acks == 1, s.r.inIx)
  }

  /** The left end acknowledges and lets go of its outbound queue. */
  lemma AckPut(s: Sys, v: View)
    requires NodeOk(s.l) && QueuesOk(s) && Half(Flip(s)) && Pointers(s)
    requires Asked(s) && s.l.acks == 0 && OutIx(s) == s.r.inIx
    requires v.outq.None? && AllMore(v.inq.partial)
    requires v.e.phase == (if s.l.terms == 1 then TermReqSent2 else TermAckSent)
    ensures var t := Put(s, v, [PipeTermAck]); Inv(t.(l := t.l.(gotTerm := true)))
  {
    var t := Put(s, v, [PipeTermAck]);
    var u := t.(l := t.l.(gotTerm := true));
    assert s.r.alive;
    Sent(s, [PipeTermAck]);
    assert Half(u);
    assert Half(Flip(u));
  }

  lemma WaitingIsAsked(s: Sys)
    requires Inv(s) && s.l.alive && s.l.gotTerm
    ensures Asked(s) && OutIx(s) == s.r.inIx
  {
    ScanTermed(s.toL, St(true, false, OutIx(s)));
  }

  /** The left end asks the peer to terminate. */
  lemma TermPut(s: Sys, v: View, more: seq<Cmd>)
    requires Inv(s) && s.l.alive && Pointers(s)
    requires s.l.terms == 0 && s.l.acks == 0 && !s.l.gotTerm
    requires v.e.phase == TermReqSent1 && v.outq.Some? && AllMore(v.outq.value.partial) && AllMore(v.inq.partial)
    requires forall c <- more :: Activation(c)
    ensures Inv(Put(s, v, [PipeTerm] + more))
  {
    var sent := [PipeTerm] + more;
    var t := Put(s, v, sent);
    assert s.r.alive;
    NoTermInActivations(more);
    Sent(s, sent);
    ScanAppend([PipeTerm], more, St(false, false, s.l.inIx));
    assert Scan([PipeTerm], St(false, false, s.l.inIx)) == St(true, false, s.l.inIx);
    ScanActivations(more, St(true, false, s.l.inIx));
    assert Half(t);
    assert Half(Flip(t));
  }

  lemma QueueWritesOk(s: Sys)
    requires Inv(s) && s.l.alive && Pointers(s)
    ensures AllMore(ViewL(s).inq.partial)
    ensures ViewL(s).outq.Some? ==> AllMore(ViewL(s).outq.value.partial)
  {
    assert Half(Flip(s));
    assert s.rl.qs[s.l.inIx] in s.rl.qs;
    if s.l.outIx.Some? { assert s.lr.qs[s.l.outIx.value] in s.lr.qs; }
  }

  /** Reading, in the two forms that it has. */
  lemma ReadResultOk(s: Sys, r: ReadResult)
    requires Inv(s) && s.l.alive && Pointers(s)
    requires r == Read(ViewL(s)) || r == CheckRead(ViewL(s))
    ensures (r.v.outq.Some? ==> s.l.outIx.Some?) && Inv(Put(s, r.v, r.sent))
  {
    QueueWritesOk(s);
    if r.sent == [PipeTermAck] {
      WaitingIsAsked(s);
      AckPut(s, r.v);
    } else {
      QuietPut(s, r.v, r.sent);
    }
  }

  lemma CheckReadOk(s: Sys)
    requires Inv(s) && s.l.alive
    ensures StepL(s, DoCheckRead).Go? && Inv(StepL(s, DoCheckRead).s)
  {
    PointersOk(s);
    ReadResultOk(s, CheckRead(ViewL(s)));
  }

  lemma ReadOk(s: Sys)
    requires Inv(s) && s.l.alive
    ensures StepL(s, DoRead).Go? && Inv(StepL(s, DoRead).s)
  {
    PointersOk(s);
    var r := Read(ViewL(s));
    ReadResultOk(s, r);
    if r.got.Some? { DeliveredAside(Put(s, r.v, r.sent), r.got.value); }
  }

  /** The record of what was read has no part in the handshake. */
  lemma DeliveredAside(s: Sys, f: Frame)
    requires Inv(s)
    ensures Inv(s.(l := s.l.(delivered := s.l.delivered + [f])))
  {
    var t := s.(l := s.l.(delivered := s.l.delivered + [f]));
    assert Half(t) && Half(Flip(t));
  }

  lemma CheckWriteOk(s: Sys)
    requires Inv(s) && s.l.alive
    ensures StepL(s, DoCheckWrite).Go? && Inv(StepL(s, DoCheckWrite).s)
  {
    PointersOk(s);
    QueueWritesOk(s);
    QuietPut(s, CheckWrite(ViewL(s)).0, []);
  }

  lemma WriteOk(s: Sys, f: Frame)
    requires Inv(s) && s.l.alive && f.Part?
    ensures Pointers(s) && WriteL(s, f).Go? && Inv(WriteL(s, f).s)
  {
    PointersOk(s);
    QueueWritesOk(s);
    QuietPut(s, Write(ViewL(s), f).0.value, []);
  }

  lemma RollbackOk(s: Sys)
    requires Inv(s) && s.l.alive
    ensures StepL(s, DoRollback).Go? && Inv(StepL(s, DoRollback).s)
  {
    PointersOk(s);
    QueueWritesOk(s);
    QuietPut(s, Rollback(ViewL(s)).v, []);
  }

  lemma FlushOk(s: Sys)
    requires Inv(s) && s.l.alive
    ensures StepL(s, DoFlush).Go? && Inv(StepL(s, DoFlush).s)
  {
    PointersOk(s);
    QueueWritesOk(s);
    QuietPut(s, Flush(ViewL(s)).0, Flush(ViewL(s)).1);
  }

  lemma SetNoDelayOk(s: Sys)
    requires Inv(s) && s.l.alive
    ensures StepL(s, DoSetNoDelay).Go? && Inv(StepL(s, DoSetNoDelay).s)
  {
    PointersOk(s);
    var t := StepL(s, DoSetNoDelay).s;
    assert Half(t) && Half(Flip(t));
  }

  lemma HiccupOk(s: Sys)
    requires Inv(s) && s.l.alive
    ensures StepL(s, DoHiccup).Go? && Inv(StepL(s, DoHiccup).s)
  {
    PointersOk(s);
    var t := HiccupL(s);
    if s.l.e.phase == Active {
      Sent(s, [Hiccup(|s.rl.qs|)]);
      assert Half(t);
      assert Half(Flip(t));
    }
  }

  /** What closing the outbound direction leaves behind. */
  lemma CloseOutboundOk(v: View, sent: seq<Cmd>)
    requires v.outq.Some? ==> AllMore(v.outq.value.partial)
    ensures var o := CloseOutbound(v, sent);
      && o.Ok? && o.v.e == v.e.(outActive := false) && o.v.inq == v.inq
      && o.v.outq.Some? == v.outq.Some?
      && (o.v.outq.Some? ==> o.v.outq.value.partial == [])
      && |sent| <= |o.sent| && o.sent[..|sent|] == sent
      && (forall c <- o.sent[|sent|..] :: Activation(c))
      && (v.outq.None? ==> o.sent == sent)
  {
  }

  lemma TerminateOk(s: Sys, delay: bool)
    requires Inv(s) && s.l.alive
    ensures StepL(s, DoTerminate(delay)).Go? && Inv(StepL(s, DoTerminate(delay)).s)
  {
    PointersOk(s);
    TerminateResultOk(s, delay);
  }

  lemma TerminateResultOk(s: Sys, delay: bool)
    requires Inv(s) && s.l.alive && Pointers(s)
    ensures var o := Terminate(ViewL(s), delay);
      o.Ok? && (o.v.outq.Some? ==> s.l.outIx.Some?) && Inv(Put(s, o.v, o.sent))
  {
    match s.l.e.phase
    case WaitingForDelimiter => TerminateWaitingOk(s, delay);
    case Active => TerminateAsksOk(s, delay);
    case DelimiterReceived => TerminateAsksOk(s, delay);
    case _ => QueueWritesOk(s); QuietPut(s, Terminate(ViewL(s), delay).v, []);
  }

  lemma TerminateAsksOk(s: Sys, delay: bool)
    requires Inv(s) && s.l.alive && Pointers(s) && (s.l.e.phase == Active || s.l.e.phase == DelimiterReceived)
    ensures var o := Terminate(ViewL(s), delay);
      o.Ok? && (o.v.outq.Some? ==> s.l.outIx.Some?) && Inv(Put(s, o.v, o.sent))
  {
    QueueWritesOk(s);
    var v := ViewL(s);
    AskOk(s, v.(e := v.e.(delay := delay)), Terminate(v, delay));
  }

  lemma TerminateWaitingOk(s: Sys, delay: bool)
    requires Inv(s) && s.l.alive && Pointers(s) && s.l.e.phase == WaitingForDelimiter
    ensures var o := Terminate(ViewL(s), delay);
      o.Ok? && (o.v.outq.Some? ==> s.l.outIx.Some?) && Inv(Put(s, o.v, o.sent))
  {
    QueueWritesOk(s);
    var v := ViewL(s);
    var u := v.(e := v.e.(delay := delay));
    var o := Terminate(v, delay);
    if !delay {
      WaitingIsAsked(s);
      CloseOutboundOk(u.(e := u.e.(phase := TermAckSent), outq := None), [PipeTermAck]);
      AckPut(s, o.v);
    } else {
      CloseOutboundOk(u, []);
      QuietPut(s, o.v, o.sent);
    }
  }

  lemma AskOk(s: Sys, u: View, o: Outcome)
    requires Inv(s) && s.l.alive && Pointers(s)
    requires s.l.terms == 0 && s.l.acks == 0 && !s.l.gotTerm
    requires u.outq.Some? && AllMore(u.outq.value.partial) && AllMore(u.inq.partial)
    requires o == CloseOutbound(u.(e := u.e.(phase := TermReqSent1)), [PipeTerm])
    ensures o.Ok? && o.v.outq.Some? && Inv(Put(s, o.v, o.sent))
  {
    CloseOutboundOk(u.(e := u.e.(phase := TermReqSent1)), [PipeTerm]);
    assert o.sent == [PipeTerm] + o.sent[1..];
    TermPut(s, o.v, o.sent[1..]);
  }

  /** An activation at the head of the channel says nothing about the handshake. */
  lemma ActivationPopped(s: Sys)
    requires Inv(s) && s.l.alive && s.toL != [] && Activation(s.toL[0])
    ensures Inv(s.(toL := s.toL[1..]))
  {
    ScanBad(s.toL[1..]);
    var t := s.(toL := s.toL[1..]);
    assert Half(t) && Half(Flip(t));
  }

  lemma ActivationHandled(s: Sys, c: Cmd)
    requires Inv(s) && s.l.alive && Activation(c)
    ensures Pointers(s) && HandleL(s, c).Go? && Inv(HandleL(s, c).s)
  {
    PointersOk(s);
    QueueWritesOk(s);
    var v := ViewL(s);
    QuietPut(s, if c.ActivateRead? then ProcessActivateRead(v) else ProcessActivateWrite(v, c.msgsRead), []);
  }

  /** The outbound queue named by a hiccup is the next one, and the end still has one to replace. */
  lemma HiccupPopped(s: Sys)
    requires Inv(s) && s.l.alive && s.toL != [] && s.toL[0].Hiccup?
    ensures Pointers(s) && s.toL[0].queue == OutIx(s) + 1 <= s.r.inIx && s.l.outIx.Some?
    ensures s.toL[0].queue < |s.lr.qs| && s.toL[0].queue !in s.lr.freed
  {
    PointersOk(s);
    ScanBad(s.toL[1..]);
    ScanIx(s.toL[1..], St(false, false, s.toL[0].queue));
  }

  lemma SwitchOwnHalf(s: Sys, e: End)
    requires Inv(s) && s.l.alive && s.toL != [] && s.toL[0].Hiccup? && e.phase == s.l.e.phase
    ensures s.l.outIx.Some? && Half(Switch(s.(toL := s.toL[1..]), e, s.toL[0].queue))
  {
    HiccupPopped(s);
    ScanBad(s.toL[1..]);
  }

  lemma SwitchPeerHalf(s: Sys, e: End)
    requires Inv(s) && s.l.alive && s.toL != [] && s.toL[0].Hiccup? && e.phase == s.l.e.phase
    ensures s.l.outIx.Some? && Half(Flip(Switch(s.(toL := s.toL[1..]), e, s.toL[0].queue)))
  {
    HiccupPopped(s);
  }

  lemma HiccupHandled(s: Sys)
    requires Inv(s) && s.l.alive && s.toL != [] && s.toL[0].Hiccup?
    ensures var t := s.(toL := s.toL[1..]); Pointers(t) && HandleL(t, s.toL[0]).Go? && Inv(HandleL(t, s.toL[0]).s)
  {
    HiccupPopped(s);
    var t, k := s.(toL := s.toL[1..]), s.toL[0].queue;
    var o := ProcessHiccup(ViewL(t), t.lr.qs[k]);
    assert o.Ok? && o.v.e.phase == s.l.e.phase;
    SwitchOwnHalf(s, o.v.e);
    SwitchPeerHalf(s, o.v.e);
  }

  lemma {:induction false} ScanIx(cs: seq<Cmd>, st: Scanned)
    requires st.St? && Scan(cs, st) != Bad
    ensures st.ix <= Scan(cs, st).ix
    decreases |cs|
  {
    if cs != [] {
      ScanBad(cs[1..]);
      ScanIx(cs[1..], ScanCmd(st, cs[0]));
    }
  }

  /** What a pipe_term at the head of the channel tells about the rest of it. */
  lemma PipeTermPopped(s: Sys)
    requires Inv(s) && s.l.alive && s.toL != [] && s.toL[0].PipeTerm?
    ensures var t := s.(toL := s.toL[1..]);
      Pointers(t) && NodeOk(t.l) && QueuesOk(t) && Half(Flip(t)) && Asked(t) && OutIx(t) == t.r.inIx && !t.l.gotTerm
  {
    PointersOk(s);
    var rest := s.toL[1..];
    ScanBad(rest);
    assert Scan(rest, St(true, false, OutIx(s))) != Bad;
    ScanTermed(rest, St(true, false, OutIx(s)));
    var t := s.(toL := rest);
    assert Half(Flip(t)) && QueuesOk(t);
  }

  /** An active end that waits for the delimiter sends nothing yet. */
  lemma BeginWaiting(s: Sys, v: View)
    requires NodeOk(s.l) && QueuesOk(s) && Half(Flip(s)) && Pointers(s)
    requires Asked(s) && !s.l.gotTerm && OutIx(s) == s.r.inIx && s.l.e.phase == Active
    requires v == ViewL(s).(e := s.l.e.(phase := WaitingForDelimiter))
    ensures var t := Put(s, v, []); Inv(t.(l := t.l.(gotTerm := true)))
  {
    var t := Put(s, v, []);
    var u := t.(l := t.l.(gotTerm := true));
    assert s.toR + [] == s.toR;
    assert Half(u);
    assert Half(Flip(u));
  }

  lemma PipeTermHandled(s: Sys)
    requires NodeOk(s.l) && QueuesOk(s) && Half(Flip(s)) && Pointers(s)
    requires Asked(s) && !s.l.gotTerm && OutIx(s) == s.r.inIx
    ensures HandleL(s, PipeTerm).Go? && Inv(HandleL(s, PipeTerm).s)
  {
    assert s.rl.qs[s.l.inIx] in s.rl.qs;
    var v := ViewL(s);
    var o := ProcessPipeTerm(v);
    if o.sent == [PipeTermAck] { AckPut(s, o.v); } else { BeginWaiting(s, o.v); }
  }

  /** A pipe_term_ack is the last command in the channel. */
  lemma PipeTermAckPopped(s: Sys)
    requires Inv(s) && s.l.alive && s.toL != [] && s.toL[0].PipeTermAck?
    ensures Pointers(s) && s.toL[1..] == [] && s.r.acks == 1 && OutIx(s) == s.r.inIx
  {
    PointersOk(s);
    ScanBad(s.toL[1..]);
    AckIsLast(s.toL[1..], ScanCmd(St(s.l.gotTerm, false, OutIx(s)), PipeTermAck));
  }

  /** The end sends its own acknowledgement first if the requests crossed. */
  lemma LastAckSent(s: Sys)
    requires Inv(s) && s.l.alive && s.toL != [] && s.toL[0].PipeTermAck?
    ensures Pointers(s) && ProcessPipeTermAck(ViewL(s)).Ok?
    ensures s.l.e.phase == TermReqSent1 ==> s.l.outIx.Some? && s.r.alive
  {
    PipeTermAckPopped(s);
  }

  lemma BuryOwnHalf(s: Sys, t: Sys)
    requires Inv(s) && s.l.alive && s.toL != [] && s.toL[0].PipeTermAck?
    requires t.l == s.l.(outIx := t.l.outIx, acks := 1) && t.r == s.r && t.toL == [] && t.lr == s.lr
    ensures Half(Bury(t))
  {
    PipeTermAckPopped(s);
  }

  lemma BuryPeerHalf(s: Sys, t: Sys)
    requires Inv(s) && s.l.alive && s.toL != [] && s.toL[0].PipeTermAck?
    requires t == s.(toL := [], toR := s.toR + if s.l.acks == 1 then [] else [PipeTermAck],
                     l := s.l.(outIx := t.l.outIx, acks := 1))
    requires s.l.acks == 0 ==> s.r.alive
    ensures Half(Flip(Bury(t)))
  {
    PipeTermAckPopped(s);
    if s.l.acks == 0 { Sent(s, [PipeTermAck]); } else { assert s.toR + [] == s.toR; }
  }

  lemma PipeTermAckHandled(s: Sys)
    requires Inv(s) && s.l.alive && s.toL != [] && s.toL[0].PipeTermAck?
    ensures var t := s.(toL := s.toL[1..]); Pointers(t) && HandleL(t, PipeTermAck).Go? && Inv(HandleL(t, PipeTermAck).s)
  {
    PipeTermAckPopped(s);
    LastAckSent(s);
    var t := s.(toL := s.toL[1..]);
    PutSame(t);
    var o := ProcessPipeTermAck(ViewL(t));
    var u := Put(t, o.v, o.sent);
    assert u.rl == s.rl;
    BuryOwnHalf(s, u);
    BuryPeerHalf(s, u);
  }

  lemma StepLOk(s: Sys, ev: Event)
    requires Inv(s)
    ensures StepL(s, ev).Go? && Inv(StepL(s, ev).s)
  {
    if s.l.alive {
      match ev
      case DoCheckRead => CheckReadOk(s);
      case DoRead => ReadOk(s);
      case DoHiccup => HiccupOk(s);
      case DoTerminate(d) => TerminateOk(s, d);
      case Deliver => DeliverOk(s);
      case DoCheckWrite => CheckWriteOk(s);
      case DoWrite(m, i, b) => WriteOk(s, Part(m, i, b));
      case DoRollback => RollbackOk(s);
      case DoFlush => FlushOk(s);
      case DoSetNoDelay => SetNoDelayOk(s);
    }
  }

  lemma DeliverOk(s: Sys)
    requires Inv(s) && s.l.alive
    ensures StepL(s, Deliver).Go? && Inv(StepL(s, Deliver).s)
  {
    PointersOk(s);
    if s.toL != [] { HandledOk(s); }
  }

  lemma HandledOk(s: Sys)
    requires Inv(s) && s.l.alive && s.toL != []
    ensures var t := s.(toL := s.toL[1..]); Pointers(t) && HandleL(t, s.toL[0]).Go? && Inv(HandleL(t, s.toL[0]).s)
  {
    match s.toL[0]
    case Hiccup(_) => HiccupHandled(s);
    case PipeTerm => PipeTermPopped(s); PipeTermHandled(s.(toL := s.toL[1..]));
    case PipeTermAck => PipeTermAckHandled(s);
    case c => ActivationPopped(s); ActivationHandled(s.(toL := s.toL[1..]), c);
  }

  lemma StepOk(s: Sys, m: Move)
    requires Inv(s)
    ensures StepS(s, m).Go? && Inv(StepS(s, m).s)
  {
    assert Flip(Flip(s)) == s;
    if m.side == L { StepLOk(s, m.ev); } else { StepLOk(Flip(s), m.ev); }
  }

  lemma {:induction false} RunKeepsInv(s: Sys, ms: seq<Move>)
    requires Inv(s)
    ensures Run(s, ms).Go? && Inv(Run(s, ms).s)
    decreases |ms|
  {
    if ms != [] {
      StepOk(s, ms[0]);
      RunKeepsInv(StepS(s, ms[0]).s, ms[1..]);
    }
  }

  /** Main theorem: from pipepair, under every interleaving of user calls, command
      deliveries and hiccups on both ends, no assertion fails, no command reaches a deallocated
      end and no end holds a freed queue; each end sends pipe_term and pipe_term_ack at most once. */
  lemma HandshakeIsSafe(hwmLR: int, hwmRL: int, ms: seq<Move>)
    ensures Run(Init(hwmLR, hwmRL), ms).Go?
    ensures var s := Run(Init(hwmLR, hwmRL), ms).s;
      && s.l.terms <= 1 && s.l.acks <= 1 && s.r.terms <= 1 && s.r.acks <= 1
      && (!s.l.alive ==> s.toL == [])
      && (!s.r.alive ==> s.toR == [])
      && (s.l.alive ==> Pointers(s))
      && (s.r.alive ==> Pointers(Flip(s)))
      && (s.l.outIx.Some? ==> s.r.alive)
      && (s.r.outIx.Some? ==> s.l.alive)
  {
    InitOk(hwmLR, hwmRL);
    RunKeepsInv(Init(hwmLR, hwmRL), ms);
    var s := Run(Init(hwmLR, hwmRL), ms).s;
    assert Flip(Flip(s)) == s;
    if s.l.alive { PointersOk(s); }
    if s.r.alive { PointersOk(Flip(s)); }
  }

  /** Once both ends are gone, every queue ever opened has been freed and no command is left. */
  lemma NoQueueLeaks(hwmLR: int, hwmRL: int, ms: seq<Move>)
    requires Run(Init(hwmLR, hwmRL), ms).Go?
    requires var s := Run(Init(hwmLR, hwmRL), ms).s; !s.l.alive && !s.r.alive
    ensures var s := Run(Init(hwmLR, hwmRL), ms).s;
      && s.toL == [] && s.toR == []
      && (forall k: nat :: k in s.lr.freed <==> k < |s.lr.qs|)
      && (forall k: nat :: k in s.rl.freed <==> k < |s.rl.qs|)
  {
    InitOk(hwmLR, hwmRL);
    RunKeepsInv(Init(hwmLR, hwmRL), ms);
  }
}
