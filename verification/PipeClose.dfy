/** Closing a pipe pair: the delimiter, sleeping readers, and why a closing pair
    finishes -- or exactly when it does not. */
module PipeClose {
  import opened Basics
  import opened PipeEnd
  import opened PipePair
  import opened PipeSafety

  predicate Reads(n: Node) { n.alive && Readable(n.e.phase) }

  predicate Blank(q: Queue) { q.flushed == [] && q.complete == [] && q.partial == [] }

  /** The left end as writer, the right end as reader of its newest queue. */
  predicate CloseHalf(s: Sys) {
    s.r.inIx < |s.lr.qs| &&
    var q := s.lr.qs[s.r.inIx];
    && s.l.terms <= 1
    && (s.l.terms == 0 ==> s.l.termIx == None)
    && (s.l.terms == 1 ==> s.l.termIx.Some? && s.l.termIx.value <= s.r.inIx)
    && (s.l.outIx.Some? ==> forall j :: s.l.outIx.value < j < |s.lr.qs| ==> Blank(s.lr.qs[j]))
    && (Reads(s.r) ==>
          && (Delimiter in q.flushed <==> s.l.termIx == Some(s.r.inIx))
          && (Delimiter in q.complete ==> s.l.termIx == Some(s.r.inIx))
          && (!s.r.e.inActive ==> q.asleep || ActivateRead in s.toR)
          && Delimiter !in q.partial)
    && (forall x <- s.lr.qs :: x.asleep ==> x.flushed == [])
    && (s.r.alive && s.r.e.phase == DelimiterReceived ==> s.l.terms == 1)
  }

  ghost predicate CloseInv(s: Sys) {
    Inv(s) && CloseHalf(s) && CloseHalf(Flip(s))
  }

  lemma InitCloses(hwmLR: int, hwmRL: int)
    ensures CloseInv(Init(hwmLR, hwmRL))
  {
    InitOk(hwmLR, hwmRL);
  }

  /** The left end's outbound queue went from q to q' without gaining a delimiter. */
  predicate NoNewDelimiter(q: Queue, q': Queue, sent: seq<Cmd>) {
    && (Delimiter in q.flushed ==> Delimiter in q'.flushed)
    && (Delimiter in q'.flushed ==> Delimiter in q.flushed || Delimiter in q.complete)
    && (Delimiter in q'.complete ==> Delimiter in q.complete || Delimiter in q.partial)
    && (Delimiter in q'.partial ==> Delimiter in q.partial)
    && (q'.asleep ==> q.asleep && q'.flushed == q.flushed)
    && (q.asleep && !q'.asleep ==> ActivateRead in sent)
  }

  lemma WriterPut(s: Sys, v: View, sent: seq<Cmd>)
    requires Pointers(s) && s.r.inIx < |s.lr.qs| && CloseHalf(s)
    requires CountCmd(sent, PipeTerm) == 0
    requires Reads(s.r) ==> v.outq.Some?
    requires v.outq.Some? ==> s.l.outIx.Some? && NoNewDelimiter(ViewL(s).outq.value, v.outq.value, sent)
    ensures CloseHalf(Put(s, v, sent))
  {
    assert forall c :: c in s.toR ==> c in s.toR + sent;
  }

  /** The left end's inbound queue went from q to q' by polling or reading. */
  predicate Consumed(q: Queue, q': Queue, was: End, now: End) {
    && q'.complete == q.complete && q'.partial == q.partial
    && (q'.asleep ==> q'.flushed == [])
    && (q.flushed == q'.flushed || (q.flushed != [] && q'.flushed == q.flushed[1..]))
    && (now.inActive == was.inActive || q'.asleep)
    && (Readable(now.phase) ==> Readable(was.phase) && (q'.flushed != q.flushed ==> !q.flushed[0].Delimiter?))
    && (now.phase == DelimiterReceived && was.phase != DelimiterReceived ==>
          Readable(was.phase) && Delimiter in q.flushed)
    && (q.asleep ==> q'.asleep)
  }

  lemma ReaderPut(s: Sys, v: View, sent: seq<Cmd>)
    requires Pointers(s) && s.l.alive && CloseHalf(Flip(s))
    requires Consumed(ViewL(s).inq, v.inq, s.l.e, v.e)
    requires v.outq.Some? ==> s.l.outIx.Some?
    ensures CloseHalf(Flip(Put(s, v, sent)))
  {
    var q, q' := ViewL(s).inq, v.inq;
    if q.flushed != q'.flushed {
      assert q.flushed == [q.flushed[0]] + q'.flushed;
      assert Delimiter in q.flushed <==> q.flushed[0] == Delimiter || Delimiter in q'.flushed;
    }
  }

  /** What the closing argument uses of the handshake invariant. */
  predicate Ready(s: Sys) {
    && s.l.alive && Pointers(s) && s.r.inIx < |s.lr.qs| && NodeOk(s.l)
    && (Reads(s.r) ==> s.l.outIx.Some? && s.l.outIx.value <= s.r.inIx && !s.l.gotTerm)
    && (s.l.outIx.Some? ==> AllMore(ViewL(s).outq.value.partial))
  }

  lemma InvReady(s: Sys)
    requires Inv(s) && s.l.alive
    ensures Ready(s)
  {
    PointersOk(s);
    QueueWritesOk(s);
    assert Half(Flip(s));
  }

  lemma ReadViews(v: View, r: ReadResult)
    requires v.inq.asleep ==> v.inq.flushed == []
    requires r == Read(v) || r == CheckRead(v)
    ensures Consumed(v.inq, r.v.inq, v.e, r.v.e)
    ensures CountCmd(r.sent, PipeTerm) == 0
    ensures r.v.outq == v.outq || (r.v.outq == None && v.e.phase == WaitingForDelimiter)
  {
  }

  lemma ReadCloses(s: Sys, r: ReadResult)
    requires Ready(s) && CloseHalf(s) && CloseHalf(Flip(s)) && (r == Read(ViewL(s)) || r == CheckRead(ViewL(s)))
    ensures r.v.outq.Some? ==> s.l.outIx.Some?
    ensures CloseHalf(Put(s, r.v, r.sent)) && CloseHalf(Flip(Put(s, r.v, r.sent)))
  {
    assert s.rl.qs[s.l.inIx] in s.rl.qs;
    ReadViews(ViewL(s), r);
    ReaderPut(s, r.v, r.sent);
    WriterPut(s, r.v, r.sent);
  }

  lemma FlushViews(v: View)
    requires v.outq.Some? && AllMore(v.outq.value.partial)
    ensures Rollback(v).Ok? && SameReader(v, Rollback(v).v, [])
    ensures SameReader(v, Flush(v).0, Flush(v).1)
  {
    var q := v.outq.value;
    assert forall x :: x in q.flushed + q.complete <==> x in q.flushed || x in q.complete;
  }

  lemma PartViews(v: View, f: Frame)
    requires f.Part?
    requires v.outq.Some? && AllMore(v.outq.value.partial)
    ensures Write(v, f).0.Some? && SameReader(v, Write(v, f).0.value, [])
  {
    var q := v.outq.value;
    assert forall x :: x in q.complete + q.partial + [f] <==> x in q.complete || x in q.partial || x == f;
    assert forall x :: x in q.partial + [f] <==> x in q.partial || x == f;
  }

  /** The reading side and the handshake stay put; no delimiter enters the outbound queue. */
  predicate SameReader(v: View, w: View, sent: seq<Cmd>) {
    && w.inq == v.inq && w.e.inActive == v.e.inActive && w.e.phase == v.e.phase
    && w.outq.Some? == v.outq.Some?
    && (w.outq.Some? ==> NoNewDelimiter(v.outq.value, w.outq.value, sent))
    && CountCmd(sent, PipeTerm) == 0
  }

  lemma QuietCloses(s: Sys, w: View, sent: seq<Cmd>)
    requires Ready(s) && CloseHalf(s) && CloseHalf(Flip(s)) && SameReader(ViewL(s), w, sent)
    ensures CloseHalf(Put(s, w, sent)) && CloseHalf(Flip(Put(s, w, sent)))
  {
    assert s.rl.qs[s.l.inIx] in s.rl.qs;
    ReaderPut(s, w, sent);
    WriterPut(s, w, sent);
  }

  lemma CheckWriteCloses(s: Sys)
    requires Ready(s) && CloseHalf(s) && CloseHalf(Flip(s))
    ensures var w := CheckWrite(ViewL(s)).0;
      (w.outq.Some? ==> s.l.outIx.Some?) && CloseHalf(Put(s, w, [])) && CloseHalf(Flip(Put(s, w, [])))
  {
    QuietCloses(s, CheckWrite(ViewL(s)).0, []);
  }

  lemma RollbackCloses(s: Sys)
    requires Ready(s) && CloseHalf(s) && CloseHalf(Flip(s))
    ensures var o := Rollback(ViewL(s));
      o.Ok? && (o.v.outq.Some? ==> s.l.outIx.Some?) && CloseHalf(Put(s, o.v, o.sent)) && CloseHalf(Flip(Put(s, o.v, o.sent)))
  {
    var v := ViewL(s);
    if v.outq.Some? { FlushViews(v); }
    QuietCloses(s, Rollback(v).v, []);
  }

  lemma FlushCloses(s: Sys)
    requires Ready(s) && CloseHalf(s) && CloseHalf(Flip(s))
    ensures var (w, sent) := Flush(ViewL(s));
      (w.outq.Some? ==> s.l.outIx.Some?) && CloseHalf(Put(s, w, sent)) && CloseHalf(Flip(Put(s, w, sent)))
  {
    var v := ViewL(s);
    if v.outq.Some? { FlushViews(v); }
    QuietCloses(s, Flush(v).0, Flush(v).1);
  }

  lemma WritePartCloses(s: Sys, f: Frame)
    requires Ready(s) && CloseHalf(s) && CloseHalf(Flip(s)) && f.Part?
    ensures WriteL(s, f).Go? && CloseHalf(WriteL(s, f).s) && CloseHalf(Flip(WriteL(s, f).s))
  {
    var v := ViewL(s);
    if v.outq.Some? { PartViews(v, f); }
    QuietCloses(s, Write(v, f).0.value, []);
  }

  lemma HiccupCloses(s: Sys)
    requires Ready(s) && CloseHalf(s) && CloseHalf(Flip(s))
    requires s.r.outIx.Some? ==> s.r.outIx.value < |s.rl.qs|
    requires s.l.inIx + 1 == |s.rl.qs|
    ensures CloseHalf(HiccupL(s)) && CloseHalf(Flip(HiccupL(s)))
  {
    var t := HiccupL(s);
    assert forall c :: c in s.toR ==> c in t.toR;
  }

  /** Appending the delimiter and flushing it. */
  lemma DelimiterViews(v: View, sent: seq<Cmd>)
    requires v.outq.Some? && AllMore(v.outq.value.partial)
    ensures var o := CloseOutbound(v, sent);
      && o.Ok? && o.v.e == v.e.(outActive := false) && o.v.inq == v.inq && o.v.outq.Some?
      && (v.e.phase != TermAckSent ==>
            && Delimiter in o.v.outq.value.flushed && o.v.outq.value.complete == [] && o.v.outq.value.partial == []
            && !o.v.outq.value.asleep
            && (o.sent == sent || o.sent == sent + [ActivateRead])
            && (v.outq.value.asleep ==> ActivateRead in o.sent))
  {
    var q := v.outq.value;
    var q1 := QWrite(q.(partial := []), Delimiter, false);
    assert q1.complete == q.complete + [] + [Delimiter];
    assert q1.complete[|q.complete|] == Delimiter;
    assert Delimiter in q.flushed + q1.complete;
  }

  /** The left end writes its delimiter, sending pipe_term or not. */
  lemma DelimiterPut(s: Sys, v: View, sent: seq<Cmd>)
    requires Ready(s) && CloseHalf(s) && CloseHalf(Flip(s))
    requires v.inq == ViewL(s).inq && v.e.inActive == s.l.e.inActive
    requires v.e.phase == s.l.e.phase || v.e.phase == TermReqSent1
    requires s.l.outIx.Some? && v.outq.Some?
    requires Delimiter in v.outq.value.flushed && v.outq.value.complete == [] && v.outq.value.partial == [] && !v.outq.value.asleep
    requires ViewL(s).outq.value.asleep ==> ActivateRead in sent
    requires s.l.terms == 0
    requires CountCmd(sent, PipeTerm) <= 1
    requires Reads(s.r) ==> CountCmd(sent, PipeTerm) == 1
    requires s.l.outIx.value <= s.r.inIx
    ensures CloseHalf(Put(s, v, sent)) && CloseHalf(Flip(Put(s, v, sent)))
  {
    var t := Put(s, v, sent);
    assert forall c :: c in s.toR + sent <==> c in s.toR || c in sent;
    assert s.rl.qs[s.l.inIx] in s.rl.qs;
    ReaderPut(s, v, sent);
    assert CloseHalf(t);
  }

  lemma TerminateCloses(s: Sys, delay: bool)
    requires Ready(s) && CloseHalf(s) && CloseHalf(Flip(s))
    requires s.l.outIx.Some? ==> s.l.outIx.value <= s.r.inIx
    ensures var o := Terminate(ViewL(s), delay);
      o.Ok? && (o.v.outq.Some? ==> s.l.outIx.Some?) && CloseHalf(Put(s, o.v, o.sent)) && CloseHalf(Flip(Put(s, o.v, o.sent)))
  {
    var v := ViewL(s);
    var u := v.(e := v.e.(delay := delay));
    var o := Terminate(v, delay);
    match s.l.e.phase
    case Active => AskCloses(s, u);
    case DelimiterReceived => AskCloses(s, u);
    case WaitingForDelimiter => TerminateWaitingCloses(s, delay);
    case _ => QuietCloses(s, o.v, o.sent);
  }

  lemma TerminateWaitingCloses(s: Sys, delay: bool)
    requires Ready(s) && CloseHalf(s) && CloseHalf(Flip(s)) && s.l.e.phase == WaitingForDelimiter
    requires s.l.outIx.Some? ==> s.l.outIx.value <= s.r.inIx
    ensures var o := Terminate(ViewL(s), delay);
      o.Ok? && (o.v.outq.Some? ==> s.l.outIx.Some?) && CloseHalf(Put(s, o.v, o.sent)) && CloseHalf(Flip(Put(s, o.v, o.sent)))
  {
    var v := ViewL(s);
    var o := Terminate(v, delay);
    if !delay {
      AckCloses(s, o.v);
    } else {
      DelimiterViews(v.(e := v.e.(delay := delay)), []);
      DelimiterPut(s, o.v, o.sent);
    }
  }

  lemma AskCloses(s: Sys, u: View)
    requires Ready(s) && CloseHalf(s) && CloseHalf(Flip(s)) && s.l.terms == 0
    requires s.l.outIx.Some? && s.l.outIx.value <= s.r.inIx
    requires u == ViewL(s).(e := u.e) && u.e.inActive == s.l.e.inActive
    ensures var o := CloseOutbound(u.(e := u.e.(phase := TermReqSent1)), [PipeTerm]);
      o.Ok? && CloseHalf(Put(s, o.v, o.sent)) && CloseHalf(Flip(Put(s, o.v, o.sent)))
  {
    var o := CloseOutbound(u.(e := u.e.(phase := TermReqSent1)), [PipeTerm]);
    DelimiterViews(u.(e := u.e.(phase := TermReqSent1)), [PipeTerm]);
    assert CountCmd([PipeTerm], PipeTerm) == 1 && CountCmd([PipeTerm] + [ActivateRead], PipeTerm) == 1;
    DelimiterPut(s, o.v, o.sent);
  }

  /** Letting go of the outbound queue: by then the peer has stopped reading. */
  lemma AckCloses(s: Sys, w: View)
    requires Pointers(s) && s.l.alive && s.r.inIx < |s.lr.qs| && CloseHalf(s) && CloseHalf(Flip(s))
    requires !Reads(s.r)
    requires w.outq.None? && w.inq == ViewL(s).inq && !Readable(w.e.phase) && w.e.phase != DelimiterReceived
    ensures CloseHalf(Put(s, w, [PipeTermAck])) && CloseHalf(Flip(Put(s, w, [PipeTermAck])))
  {
    assert s.rl.qs[s.l.inIx] in s.rl.qs;
    assert CountCmd([PipeTermAck], PipeTerm) == 0;
    WriterPut(s, w, [PipeTermAck]);
  }

  /** Taking a command other than activate_read from the channel. */
  lemma PopCloses(s: Sys)
    requires CloseHalf(s) && CloseHalf(Flip(s)) && s.toL != [] && !s.toL[0].ActivateRead?
    ensures CloseHalf(s.(toL := s.toL[1..])) && CloseHalf(Flip(s.(toL := s.toL[1..])))
  {
    assert s.toL == [s.toL[0]] + s.toL[1..];
  }

  lemma ActivateReadCloses(s: Sys)
    requires Ready(s) && CloseHalf(s) && CloseHalf(Flip(s)) && s.toL != [] && s.toL[0].ActivateRead?
    ensures var t := s.(toL := s.toL[1..]);
      HandleL(t, ActivateRead).Go? && CloseHalf(HandleL(t, ActivateRead).s) && CloseHalf(Flip(HandleL(t, ActivateRead).s))
  {
    var t := s.(toL := s.toL[1..]);
    var w := ProcessActivateRead(ViewL(t));
    assert CloseHalf(t);
    WriterPut(t, w, []);
    ActivatedReader(s, w);
  }

  /** The command that announced the visible items is taken, and the end reads again if it may. */
  lemma ActivatedReader(s: Sys, w: View)
    requires Ready(s) && CloseHalf(Flip(s)) && s.toL != []
    requires w == ProcessActivateRead(ViewL(s))
    ensures CloseHalf(Flip(Put(s.(toL := s.toL[1..]), w, [])))
  {
    assert s.rl.qs[s.l.inIx] in s.rl.qs;
  }

  lemma HiccupArrivesCloses(s: Sys, e: End)
    requires Ready(s) && CloseHalf(s) && CloseHalf(Flip(s)) && e.phase == s.l.e.phase && e.inActive == s.l.e.inActive
    requires s.l.outIx.Some?
    ensures CloseHalf(Switch(s, e, s.l.outIx.value + 1)) && CloseHalf(Flip(Switch(s, e, s.l.outIx.value + 1)))
  {
  }

  lemma PipeTermArrivesCloses(s: Sys)
    requires Ready(s) && CloseHalf(s) && CloseHalf(Flip(s)) && ProcessPipeTerm(ViewL(s)).Ok?
    requires s.r.terms == 1 && NodeOk(s.r)
    ensures var o := ProcessPipeTerm(ViewL(s));
      (o.v.outq.Some? ==> s.l.outIx.Some?) && CloseHalf(Put(s, o.v, o.sent)) && CloseHalf(Flip(Put(s, o.v, o.sent)))
  {
    var o := ProcessPipeTerm(ViewL(s));
    if o.sent == [PipeTermAck] {
      AckCloses(s, o.v);
    } else {
      assert s.rl.qs[s.l.inIx] in s.rl.qs;
      ReaderPut(s, o.v, []);
      WriterPut(s, o.v, []);
    }
  }

  lemma PipeTermAckArrivesCloses(s: Sys)
    requires Ready(s) && CloseHalf(s) && CloseHalf(Flip(s)) && ProcessPipeTermAck(ViewL(s)).Ok? && !Reads(s.r)
    ensures var o := ProcessPipeTermAck(ViewL(s));
      (o.v.outq.Some? ==> s.l.outIx.Some?) && CloseHalf(Put(s, o.v, o.sent)) && CloseHalf(Flip(Put(s, o.v, o.sent)))
  {
    var o := ProcessPipeTermAck(ViewL(s));
    if o.sent == [PipeTermAck] { AckCloses(s, o.v); } else { PutSame(s); }
  }

  /** The end marks that it was asked ... */
  lemma AskedCloses(s: Sys)
    requires CloseHalf(s) && CloseHalf(Flip(s))
    ensures CloseHalf(s.(l := s.l.(gotTerm := true))) && CloseHalf(Flip(s.(l := s.l.(gotTerm := true))))
  {
  }

  /** ... or is deallocated. */
  lemma BuryCloses(s: Sys)
    requires CloseHalf(s) && CloseHalf(Flip(s))
    ensures CloseHalf(Bury(s)) && CloseHalf(Flip(Bury(s)))
  {
  }

  lemma StepLCloses(s: Sys, ev: Event)
    requires CloseInv(s)
    ensures StepL(s, ev).Go? && CloseInv(StepL(s, ev).s)
  {
    StepLOk(s, ev);
    if s.l.alive {
      InvReady(s);
      StepLHalves(s, ev);
    }
  }

  lemma StepLHalves(s: Sys, ev: Event)
    requires Inv(s) && Ready(s) && CloseHalf(s) && CloseHalf(Flip(s)) && StepL(s, ev).Go?
    ensures CloseHalf(StepL(s, ev).s) && CloseHalf(Flip(StepL(s, ev).s))
  {
    match ev
    case Deliver => DeliverStepCloses(s);
    case DoHiccup => HiccupBounds(s); HiccupCloses(s);
    case DoCheckRead => ReadCloses(s, CheckRead(ViewL(s)));
    case DoRead => ReadStepCloses(s);
    case DoTerminate(d) => HiccupBounds(s); TerminateCloses(s, d);
    case _ => WriteCloses(s, ev);
  }

  lemma ReadStepCloses(s: Sys)
    requires Ready(s) && CloseHalf(s) && CloseHalf(Flip(s))
    ensures StepL(s, DoRead).Go? && CloseHalf(StepL(s, DoRead).s) && CloseHalf(Flip(StepL(s, DoRead).s))
  {
    ReadCloses(s, Read(ViewL(s)));
  }

  lemma DeliverStepCloses(s: Sys)
    requires Inv(s) && Ready(s) && CloseHalf(s) && CloseHalf(Flip(s)) && StepL(s, Deliver).Go?
    ensures CloseHalf(StepL(s, Deliver).s) && CloseHalf(Flip(StepL(s, Deliver).s))
  {
    if s.toL != [] { DeliverCloses(s); }
  }

  lemma WriteCloses(s: Sys, ev: Event)
    requires Ready(s) && CloseHalf(s) && CloseHalf(Flip(s))
    requires ev.DoCheckWrite? || ev.DoWrite? || ev.DoRollback? || ev.DoFlush? || ev.DoSetNoDelay?
    ensures StepL(s, ev).Go? && CloseHalf(StepL(s, ev).s) && CloseHalf(Flip(StepL(s, ev).s))
  {
    match ev
    case DoCheckWrite => CheckWriteCloses(s);
    case DoWrite(m, i, b) => WritePartCloses(s, Part(m, i, b));
    case DoRollback => RollbackCloses(s);
    case DoFlush => FlushCloses(s);
    case DoSetNoDelay =>
  }

  lemma HiccupBounds(s: Sys)
    requires Inv(s)
    ensures s.r.outIx.Some? ==> s.r.outIx.value < |s.rl.qs|
    ensures s.l.inIx + 1 == |s.rl.qs|
    ensures s.l.outIx.Some? ==> s.l.outIx.value <= s.r.inIx
  {
    assert Half(Flip(s));
  }

  lemma DeliverCloses(s: Sys)
    requires Inv(s) && Ready(s) && CloseHalf(s) && CloseHalf(Flip(s)) && s.toL != []
    ensures var t := s.(toL := s.toL[1..]);
      HandleL(t, s.toL[0]).Go? ==> CloseHalf(HandleL(t, s.toL[0]).s) && CloseHalf(Flip(HandleL(t, s.toL[0]).s))
  {
    HeadFacts(s);
    if s.toL[0].ActivateRead? {
      ActivateReadCloses(s);
    } else {
      PopCloses(s);
      HandleCloses(s.(toL := s.toL[1..]), s.toL[0]);
    }
  }

  lemma HandleCloses(s: Sys, c: Cmd)
    requires Ready(s) && CloseHalf(s) && CloseHalf(Flip(s)) && !c.ActivateRead? && NodeOk(s.r)
    requires c.Hiccup? ==> s.l.outIx.Some? && c.queue == s.l.outIx.value + 1
    requires c.PipeTerm? ==> s.r.terms == 1
    requires c.PipeTermAck? ==> !Reads(s.r)
    ensures HandleL(s, c).Go? ==> CloseHalf(HandleL(s, c).s) && CloseHalf(Flip(HandleL(s, c).s))
  {
    var v := ViewL(s);
    if HandleL(s, c).Go? {
      match c
      case ActivateWrite(n) => QuietCloses(s, ProcessActivateWrite(v, n), []);
      case Hiccup(k) => HiccupArrivesCloses(s, ProcessHiccup(v, s.lr.qs[k]).v.e);
      case PipeTerm =>
        PipeTermArrivesCloses(s);
        AskedCloses(Put(s, ProcessPipeTerm(v).v, ProcessPipeTerm(v).sent));
      case PipeTermAck =>
        PipeTermAckArrivesCloses(s);
        BuryCloses(Put(s, ProcessPipeTermAck(v).v, ProcessPipeTermAck(v).sent));
    }
  }

  /** What the FIFO order says about the command at the head of the channel. */
  lemma HeadFacts(s: Sys)
    requires Inv(s) && s.l.alive && s.toL != []
    ensures s.toL[0].Hiccup? ==> s.l.outIx.Some? && s.toL[0].queue == s.l.outIx.value + 1
    ensures s.toL[0].PipeTerm? ==> s.r.terms == 1
    ensures s.toL[0].PipeTermAck? ==> s.r.acks == 1 && !Reads(s.r)
    ensures NodeOk(s.r)
  {
    assert Half(Flip(s));
    ScanBad(s.toL[1..]);
    if s.toL[0].PipeTerm? { ScanTermed(s.toL[1..], St(true, false, OutIx(s))); }
    if s.toL[0].PipeTermAck? {
      AckIsLast(s.toL[1..], ScanCmd(St(s.l.gotTerm, false, OutIx(s)), PipeTermAck));
    }
  }

  lemma StepCloses(s: Sys, m: Move)
    requires CloseInv(s)
    ensures StepS(s, m).Go? && CloseInv(StepS(s, m).s)
  {
    assert Flip(Flip(s)) == s;
    if m.side == L { StepLCloses(s, m.ev); } else { StepLCloses(Flip(s), m.ev); }
  }

  lemma {:induction false} RunCloses(s: Sys, ms: seq<Move>)
    requires CloseInv(s)
    ensures Run(s, ms).Go? && CloseInv(Run(s, ms).s)
    decreases |ms|
  {
    if ms != [] {
      StepCloses(s, ms[0]);
      RunCloses(StepS(s, ms[0]).s, ms[1..]);
    }
  }

  // ---- draining ----

  function Me(s: Sys, side: Side): Node { if side == L then s.l else s.r }
  function Inbox(s: Sys, side: Side): seq<Cmd> { if side == L then s.toL else s.toR }

  /** A drain move delivers a command, or reads on behalf of an end that waits for the delimiter. */
  predicate DrainMove(s: Sys, m: Move) {
    var n := Me(s, m.side);
    || (m.ev == Deliver && Inbox(s, m.side) != [])
    || (m.ev == DoRead && n.alive && n.e.phase == WaitingForDelimiter && n.e.inActive)
  }

  function Rank(n: Node): nat {
    if !n.alive then 0
    else match n.e.phase
      case Active => 4
      case DelimiterReceived => 3
      case WaitingForDelimiter => 3
      case TermReqSent1 => 2
      case TermAckSent => 1
      case TermReqSent2 => 1
  }

  function Pending(n: Node, d: Dir): nat {
    if !n.alive then 0
    else (if n.e.inActive then 1 else 0) + if n.inIx < |d.qs| then 3 * |d.qs[n.inIx].flushed| else 0
  }

  function Measure(s: Sys): nat {
    Rank(s.l) + Rank(s.r) + Pending(s.l, s.rl) + Pending(s.r, s.lr) + 2 * (|s.toL| + |s.toR|)
  }

  lemma MeasureFlip(s: Sys)
    ensures Measure(Flip(s)) == Measure(s)
  {
  }

  /** A waiting end that reads gets a part, the delimiter, or goes to sleep. */
  lemma ReadFalls(s: Sys, r: ReadResult)
    requires Ready(s) && s.l.e.phase == WaitingForDelimiter && s.l.e.inActive && r == Read(ViewL(s))
    requires !Reads(s.r)
    ensures r.v.outq.Some? ==> s.l.outIx.Some?
    ensures var t := Put(s, r.v, r.sent); Measure(t) < Measure(s) && Rank(t.l) <= Rank(s.l) && t.r == s.r
  {
    var t := Put(s, r.v, r.sent);
    assert |r.sent| <= 1;
    assert Pending(t.r, t.lr) == Pending(s.r, s.lr);
  }

  lemma DrainReadFalls(s: Sys)
    requires Ready(s) && DrainMove(s, Move(L, DoRead)) && !Reads(s.r)
    ensures StepL(s, DoRead).Go?
    ensures var t := StepL(s, DoRead).s; Measure(t) < Measure(s) && Rank(t.l) <= Rank(s.l) && t.r == s.r
  {
    ReadFalls(s, Read(ViewL(s)));
  }

  /** Handlers leave both queues alone: only the phase, the activity flag and what is sent count. */
  lemma HandlerMeasure(s: Sys, v: View, sent: seq<Cmd>)
    requires Pointers(s) && s.l.alive && s.r.inIx < |s.lr.qs|
    requires v.inq == ViewL(s).inq && (v.outq.None? || v.outq == ViewL(s).outq)
    ensures var t := Put(s, v, sent);
      && t.r == s.r && t.toL == s.toL && t.toR == s.toR + sent
      && Pending(t.r, t.lr) == Pending(s.r, s.lr)
      && Pending(t.l, t.rl) == Pending(s.l, s.rl) + (if v.e.inActive then 1 else 0) - (if s.l.e.inActive then 1 else 0)
  {
  }

  /** Handling a command costs less than it cost in the channel. */
  predicate Cheap(s: Sys, t: Sys) { Measure(t) < Measure(s) + 2 && Rank(t.l) <= Rank(s.l) && t.r == s.r }

  lemma ActivationFalls(s: Sys, c: Cmd)
    requires Ready(s) && Activation(c)
    ensures HandleL(s, c).Go? && Cheap(s, HandleL(s, c).s)
  {
    var v := ViewL(s);
    HandlerMeasure(s, if c.ActivateRead? then ProcessActivateRead(v) else ProcessActivateWrite(v, c.msgsRead), []);
  }

  lemma PipeTermFalls(s: Sys)
    requires Ready(s) && HandleL(s, PipeTerm).Go?
    ensures Cheap(s, HandleL(s, PipeTerm).s)
  {
    var o := ProcessPipeTerm(ViewL(s));
    HandlerMeasure(s, o.v, o.sent);
  }

  lemma PipeTermAckFalls(s: Sys)
    requires Ready(s) && HandleL(s, PipeTermAck).Go?
    ensures Cheap(s, HandleL(s, PipeTermAck).s)
  {
    var o := ProcessPipeTermAck(ViewL(s));
    HandlerMeasure(s, o.v, o.sent);
  }

  lemma HandleFalls(s: Sys, c: Cmd)
    requires Ready(s) && HandleL(s, c).Go?
    ensures Cheap(s, HandleL(s, c).s)
  {
    match c
    case Hiccup(k) =>
    case PipeTerm => PipeTermFalls(s);
    case PipeTermAck => PipeTermAckFalls(s);
    case _ => ActivationFalls(s, c);
  }

  lemma DrainDeliverFalls(s: Sys)
    requires Ready(s) && s.toL != [] && StepL(s, Deliver).Go?
    ensures var t := StepL(s, Deliver).s; Measure(t) < Measure(s) && Rank(t.l) <= Rank(s.l) && t.r == s.r
  {
    HandleFalls(s.(toL := s.toL[1..]), s.toL[0]);
  }

  /** Every drain move makes the measure fall, and no end goes back to an earlier phase. */
  lemma DrainFalls(s: Sys, m: Move)
    requires CloseInv(s) && DrainMove(s, m)
    ensures StepS(s, m).Go?
    ensures var t := StepS(s, m).s; Measure(t) < Measure(s) && Rank(t.l) <= Rank(s.l) && Rank(t.r) <= Rank(s.r)
  {
    StepCloses(s, m);
    assert Flip(Flip(s)) == s;
    var u := if m.side == L then s else Flip(s);
    DrainFallsL(u, m.ev);
    MeasureFlip(s);
    MeasureFlip(StepL(u, m.ev).s);
  }

  lemma DrainFallsL(s: Sys, ev: Event)
    requires CloseInv(s) && DrainMove(s, Move(L, ev)) && StepL(s, ev).Go?
    ensures var t := StepL(s, ev).s; Measure(t) < Measure(s) && Rank(t.l) <= Rank(s.l) && t.r == s.r
  {
    assert s.l.alive;
    InvReady(s);
    if ev == Deliver { DrainDeliverFalls(s); } else { WaitingPeer(s); DrainReadFalls(s); }
  }

  lemma WaitingPeer(s: Sys)
    requires Inv(s) && s.l.alive && s.l.gotTerm
    ensures !Reads(s.r)
  {
    assert Half(Flip(s));
  }

  ghost predicate DrainRun(s: Sys, ms: seq<Move>)
    decreases |ms|
  {
    ms == [] || (DrainMove(s, ms[0]) && StepS(s, ms[0]).Go? && DrainRun(StepS(s, ms[0]).s, ms[1..]))
  }

  /** Drain schedules are bounded by the measure of the state they start from. */
  lemma {:induction false} DrainBounded(s: Sys, ms: seq<Move>)
    requires CloseInv(s) && DrainRun(s, ms)
    ensures Run(s, ms).Go? && CloseInv(Run(s, ms).s)
    ensures |ms| + Measure(Run(s, ms).s) <= Measure(s)
    ensures Rank(Run(s, ms).s.l) <= Rank(s.l) && Rank(Run(s, ms).s.r) <= Rank(s.r)
    decreases |ms|
  {
    if ms != [] {
      DrainFalls(s, ms[0]);
      StepCloses(s, ms[0]);
      DrainBounded(StepS(s, ms[0]).s, ms[1..]);
    }
  }

  ghost predicate Quiescent(s: Sys) {
    forall m: Move :: !DrainMove(s, m)
  }

  predicate Untouched(s: Sys) { s.l.alive && s.r.alive && s.l.e.phase == Active && s.r.e.phase == Active }
  predicate Closed(s: Sys) { !s.l.alive && !s.r.alive }

  /** The right end waits for a delimiter that went into a queue it no longer reads. */
  predicate Lost(s: Sys) {
    && s.l.alive && s.l.e.phase == TermReqSent1
    && s.r.alive && s.r.e.phase == WaitingForDelimiter
    && s.l.termIx != Some(s.r.inIx)
  }

  /** With empty channels and nothing left to drain, the left end decides what the pair looks like. */
  lemma QuietShape(s: Sys)
    requires CloseInv(s) && s.toL == [] && s.toR == []
    requires s.r.alive && s.r.e.phase == WaitingForDelimiter ==> !s.r.e.inActive
    requires s.l.alive && s.l.e.phase == WaitingForDelimiter ==> !s.l.e.inActive
    ensures Untouched(s) || Closed(s) || Lost(s) || Lost(Flip(s))
  {
    assert Half(s) && Half(Flip(s)) && CloseHalf(s) && CloseHalf(Flip(s));
    assert s.lr.qs[s.r.inIx] in s.lr.qs && s.rl.qs[s.l.inIx] in s.rl.qs;
  }

  /** `s` is what some run from pipepair leads to. */
  ghost predicate Reached(hwmLR: int, hwmRL: int, ms: seq<Move>, s: Sys) {
    Run(Init(hwmLR, hwmRL), ms) == Go(s)
  }

  lemma ReachedCloses(hwmLR: int, hwmRL: int, ms: seq<Move>, s: Sys)
    requires Reached(hwmLR, hwmRL, ms, s)
    ensures CloseInv(s)
  {
    InitCloses(hwmLR, hwmRL);
    RunCloses(Init(hwmLR, hwmRL), ms);
  }

  /** Nothing left to drain: the pair was never closed, is closed, or waits in vain. */
  lemma QuiescentShape(t: Sys)
    requires CloseInv(t) && Quiescent(t)
    ensures Untouched(t) || Closed(t) || Lost(t) || Lost(Flip(t))
  {
    assert !DrainMove(t, Move(L, Deliver)) && !DrainMove(t, Move(R, Deliver));
    assert !DrainMove(t, Move(L, DoRead)) && !DrainMove(t, Move(R, DoRead));
    QuietShape(t);
  }

  lemma DrainedShape(s: Sys, ds: seq<Move>, t: Sys)
    requires CloseInv(s) && DrainRun(s, ds) && Run(s, ds) == Go(t) && Quiescent(t)
    ensures |ds| <= Measure(s) && CloseInv(t) && Rank(t.l) <= Rank(s.l) && Rank(t.r) <= Rank(s.r)
    ensures Untouched(t) || Closed(t) || Lost(t) || Lost(Flip(t))
  {
    DrainBounded(s, ds);
    QuiescentShape(t);
  }

  /** Main theorem: after any run, hiccups included, every maximal drain schedule is
      no longer than the measure and ends in a pair that was never closed, a pair that is fully
      deallocated, or a waiting end whose delimiter was lost to a hiccup. */
  lemma ClosingFinishes(hwmLR: int, hwmRL: int, ms: seq<Move>, s: Sys, ds: seq<Move>, t: Sys)
    requires Reached(hwmLR, hwmRL, ms, s)
    requires DrainRun(s, ds) && Run(s, ds) == Go(t) && Quiescent(t)
    ensures |ds| <= Measure(s)
    ensures Untouched(t) || Closed(t) || Lost(t) || Lost(Flip(t))
    ensures !Untouched(s) ==> !Untouched(t)
  {
    ReachedCloses(hwmLR, hwmRL, ms, s);
    DrainedShape(s, ds, t);
    StaysTouched(s, t);
  }

  lemma StaysTouched(s: Sys, t: Sys)
    requires Rank(t.l) <= Rank(s.l) && Rank(t.r) <= Rank(s.r)
    ensures Untouched(t) ==> Untouched(s)
  {
  }

  lemma DelimiterQueue(s: Sys)
    requires CloseInv(s) && s.r.alive && s.r.e.phase == WaitingForDelimiter
    ensures s.r.inIx < |s.lr.qs|
    ensures Delimiter in s.lr.qs[s.r.inIx].flushed <==> s.l.termIx == Some(s.r.inIx)
  {
  }

  // ---- when the delimiter is ahead ----

  /** The right end takes up a new queue. */
  predicate Hiccups(s: Sys, m: Move) { m == Move(R, DoHiccup) && s.r.alive && s.r.e.phase == Active }

  /** It does so in the course of a run. */
  predicate HiccupSent(s: Sys, ms: seq<Move>)
    decreases |ms|
  {
    ms != [] && (Hiccups(s, ms[0]) || (StepS(s, ms[0]).Go? && HiccupSent(StepS(s, ms[0]).s, ms[1..])))
  }

  lemma StepInIx(s: Sys, m: Move)
    requires Inv(s) && StepS(s, m).Go?
    ensures StepS(s, m).s.r.inIx >= s.r.inIx
    ensures StepS(s, m).s.r.inIx == s.r.inIx <==> !Hiccups(s, m)
  {
    if m.ev == DoHiccup {
      HiccupBounds(Flip(s));
      if m.side == R && s.r.alive { PointersOk(Flip(s)); }
      assert Flip(Flip(s)) == s;
    } else {
      StepKeepsInIx(s, m);
    }
  }

  lemma {:induction false} RunInIx(s: Sys, ms: seq<Move>)
    requires Inv(s)
    ensures Run(s, ms).Go? && Run(s, ms).s.r.inIx >= s.r.inIx
    ensures Run(s, ms).s.r.inIx == s.r.inIx <==> !HiccupSent(s, ms)
    decreases |ms|
  {
    if ms != [] {
      StepOk(s, ms[0]);
      StepInIx(s, ms[0]);
      RunInIx(StepS(s, ms[0]).s, ms[1..]);
    }
  }

  /** The queue of the delimiter is recorded when pipe_term is sent, and then stays. */
  predicate TermIxKept(n: Node, n': Node) {
    && n'.terms >= n.terms
    && (n'.terms == n.terms ==> n'.termIx == n.termIx)
    && (n'.terms > n.terms ==> n'.termIx == n.outIx && n.alive)
  }

  lemma HandleTermIx(s: Sys, c: Cmd)
    requires Pointers(s) && HandleL(s, c).Go? && s.l.alive
    ensures TermIxKept(s.l, HandleL(s, c).s.l)
  {
  }

  lemma StepLTermIx(s: Sys, ev: Event)
    requires StepL(s, ev).Go?
    ensures TermIxKept(s.l, StepL(s, ev).s.l)
  {
    if ev == Deliver && s.l.alive && s.toL != [] && Pointers(s) { HandleTermIx(s.(toL := s.toL[1..]), s.toL[0]); }
  }

  lemma StepTermIx(s: Sys, m: Move)
    requires StepS(s, m).Go?
    ensures TermIxKept(s.l, StepS(s, m).s.l)
    ensures StepS(s, m).s.l.terms > s.l.terms ==> StepS(s, m).s.r == s.r
  {
    if m.side == L { StepLTermIx(s, m.ev); StepLPeer(s, m.ev); } else { StepLPeer(Flip(s), m.ev); }
  }

  lemma StepLPeer(s: Sys, ev: Event)
    requires StepL(s, ev).Go?
    ensures StepL(s, ev).s.r == s.r
  {
    if ev == Deliver && s.l.alive && s.toL != [] && Pointers(s) { HandleKeepsInIx(s.(toL := s.toL[1..]), s.toL[0]); }
  }

  lemma {:induction false} RunTermIx(s: Sys, ms: seq<Move>)
    requires Inv(s) && s.l.terms == 1
    ensures Run(s, ms).Go? && Run(s, ms).s.l.terms == 1 && Run(s, ms).s.l.termIx == s.l.termIx
    decreases |ms|
  {
    if ms != [] {
      StepOk(s, ms[0]);
      StepTermIx(s, ms[0]);
      RunTermIx(StepS(s, ms[0]).s, ms[1..]);
    }
  }

  /** The newest queue announced in a channel. */
  lemma {:induction false} ScanHiccups(cs: seq<Cmd>, st: Scanned)
    requires st.St? && Scan(cs, st) != Bad
    ensures st.ix <= Scan(cs, st).ix
    ensures st.ix == Scan(cs, st).ix <==> forall c <- cs :: !c.Hiccup?
    decreases |cs|
  {
    if cs != [] {
      ScanBad(cs[1..]);
      ScanHiccups(cs[1..], ScanCmd(st, cs[0]));
      assert cs == [cs[0]] + cs[1..];
    }
  }

  lemma OnNewestQueue(a: Sys)
    requires Inv(a) && a.l.alive
    ensures OutIx(a) <= a.r.inIx && (OutIx(a) == a.r.inIx <==> forall c <- a.toL :: !c.Hiccup?)
  {
    ScanHiccups(a.toL, St(a.l.gotTerm, false, OutIx(a)));
  }

  /** An end that waits for the delimiter has it ahead in its queue if and only if, when the peer
      terminated (between `a` and `b`), no hiccup was on its way to the peer, and none was sent
      afterwards. */
  lemma DelimiterAhead(hwmLR: int, hwmRL: int, before: seq<Move>, a: Sys, m: Move, b: Sys, after: seq<Move>, s: Sys)
    requires Reached(hwmLR, hwmRL, before, a) && StepS(a, m) == Go(b) && Run(b, after) == Go(s)
    requires a.l.terms == 0 && b.l.terms == 1
    requires s.r.alive && s.r.e.phase == WaitingForDelimiter
    ensures s.r.inIx < |s.lr.qs|
    ensures Delimiter in s.lr.qs[s.r.inIx].flushed <==> (forall c <- a.toL :: !c.Hiccup?) && !HiccupSent(b, after)
  {
    ReachedCloses(hwmLR, hwmRL, before, a);
    StepCloses(a, m);
    RunCloses(b, after);
    DelimiterQueue(s);
    DelimiterSince(a, m, b, after, s);
  }

  lemma DelimiterSince(a: Sys, m: Move, b: Sys, after: seq<Move>, s: Sys)
    requires Inv(a) && StepS(a, m) == Go(b) && Inv(b) && Run(b, after) == Go(s)
    requires a.l.terms == 0 && b.l.terms == 1 && b.l.termIx.Some?
    ensures s.l.termIx == Some(s.r.inIx) <==> (forall c <- a.toL :: !c.Hiccup?) && !HiccupSent(b, after)
  {
    StepTermIx(a, m);
    OnNewestQueue(a);
    RunTermIx(b, after);
    RunInIx(b, after);
  }

  lemma {:induction false} RunAppend(s: Sys, ms: seq<Move>, m: Move)
    ensures Run(s, ms + [m]) == if Run(s, ms).Go? then StepS(Run(s, ms).s, m) else Fault
    decreases |ms|
  {
    if ms == [] {
      assert ms + [m] == [m] && [m][1..] == [];
    } else {
      assert (ms + [m])[1..] == ms[1..] + [m];
      if StepS(s, ms[0]).Go? { RunAppend(StepS(s, ms[0]).s, ms[1..], m); }
    }
  }

  /** An end that has terminated did so at one move of the run. */
  lemma {:induction false} TerminatedAt(hwmLR: int, hwmRL: int, ms: seq<Move>, s: Sys)
    returns (before: seq<Move>, a: Sys, m: Move, b: Sys, after: seq<Move>)
    requires Reached(hwmLR, hwmRL, ms, s) && s.l.terms == 1
    ensures ms == before + [m] + after && Reached(hwmLR, hwmRL, before, a)
    ensures StepS(a, m) == Go(b) && Run(b, after) == Go(s) && a.l.terms == 0 && b.l.terms == 1
    decreases |ms|
  {
    var init := Init(hwmLR, hwmRL);
    assert ms != [];
    var ns, k := ms[..|ms| - 1], ms[|ms| - 1];
    assert ms == ns + [k];
    RunAppend(init, ns, k);
    InitOk(hwmLR, hwmRL);
    RunKeepsInv(init, ns);
    var u := Run(init, ns).s;
    if u.l.terms == 1 {
      before, a, m, b, after := TerminatedAt(hwmLR, hwmRL, ns, u);
      RunAppend(b, after, k);
      after := after + [k];
      assert ms == before + [m] + after;
    } else {
      before, a, m, b, after := ns, u, k, s, [];
      assert ms == before + [m] + after;
    }
  }

  predicate NoHiccup(ms: seq<Move>) { forall m <- ms :: m.ev != DoHiccup }

  /** Without hiccups each direction has one queue. */
  lemma {:induction false} OneQueue(s: Sys, ms: seq<Move>)
    requires NoHiccup(ms) && s.l.inIx == 0 && s.r.inIx == 0 && Run(s, ms).Go?
    ensures Run(s, ms).s.l.inIx == 0 && Run(s, ms).s.r.inIx == 0
    decreases |ms|
  {
    if ms != [] {
      StepKeepsInIx(s, ms[0]);
      OneQueue(StepS(s, ms[0]).s, ms[1..]);
    }
  }

  lemma StepKeepsInIx(s: Sys, m: Move)
    requires m.ev != DoHiccup && StepS(s, m).Go?
    ensures StepS(s, m).s.l.inIx == s.l.inIx && StepS(s, m).s.r.inIx == s.r.inIx
  {
    StepLKeepsInIx(if m.side == L then s else Flip(s), m.ev);
  }

  lemma StepLKeepsInIx(s: Sys, ev: Event)
    requires ev != DoHiccup && StepL(s, ev).Go?
    ensures StepL(s, ev).s.l.inIx == s.l.inIx && StepL(s, ev).s.r == s.r
  {
    if ev == Deliver && s.l.alive && s.toL != [] && Pointers(s) {
      HandleKeepsInIx(s.(toL := s.toL[1..]), s.toL[0]);
    }
  }

  lemma HandleKeepsInIx(s: Sys, c: Cmd)
    requires Pointers(s) && HandleL(s, c).Go?
    ensures HandleL(s, c).s.l.inIx == s.l.inIx && HandleL(s, c).s.r == s.r
  {
  }

  /** Drain moves are not hiccups. */
  lemma {:induction false} DrainHasNoHiccup(s: Sys, ds: seq<Move>)
    requires DrainRun(s, ds)
    ensures NoHiccup(ds)
    decreases |ds|
  {
    if ds != [] { DrainHasNoHiccup(StepS(s, ds[0]).s, ds[1..]); }
  }

  /** With one queue per direction nothing is ever lost. */
  lemma NothingLost(s: Sys)
    requires CloseInv(s) && s.l.inIx == 0 && s.r.inIx == 0
    ensures !Lost(s) && !Lost(Flip(s))
  {
    assert CloseHalf(s) && CloseHalf(Flip(s));
  }

  /** In runs without hiccups a pair that left the active phase is fully deallocated by
      every maximal drain schedule. */
  lemma ClosingWithoutHiccups(hwmLR: int, hwmRL: int, ms: seq<Move>, s: Sys, ds: seq<Move>, t: Sys)
    requires NoHiccup(ms) && Reached(hwmLR, hwmRL, ms, s) && !Untouched(s)
    requires DrainRun(s, ds) && Run(s, ds) == Go(t) && Quiescent(t)
    ensures Closed(t)
  {
    OneQueue(Init(hwmLR, hwmRL), ms);
    DrainHasNoHiccup(s, ds);
    OneQueue(s, ds);
    ReachedCloses(hwmLR, hwmRL, ms, s);
    RunCloses(s, ds);
    NothingLost(t);
    ClosingFinishes(hwmLR, hwmRL, ms, s, ds, t);
  }

  /** In runs without hiccups a waiting end always has the delimiter ahead. */
  lemma WaitingHasDelimiter(hwmLR: int, hwmRL: int, ms: seq<Move>, s: Sys)
    requires NoHiccup(ms) && Reached(hwmLR, hwmRL, ms, s)
    requires s.r.alive && s.r.e.phase == WaitingForDelimiter
    ensures |s.lr.qs| == 1 && Delimiter in s.lr.qs[0].flushed
  {
    OneQueue(Init(hwmLR, hwmRL), ms);
    ReachedCloses(hwmLR, hwmRL, ms, s);
    DelimiterQueue(s);
    OneQueueOnly(s);
  }

  /** With one queue the peer of a waiting end wrote its delimiter there. */
  lemma OneQueueOnly(s: Sys)
    requires CloseInv(s) && s.r.inIx == 0 && s.r.alive && s.r.e.phase == WaitingForDelimiter
    ensures |s.lr.qs| == 1 && s.l.termIx == Some(0)
  {
    assert Half(s) && Half(Flip(s)) && CloseHalf(s);
  }

  /** The right end had a hiccup and the left end terminated before hearing of it. */
  const CROSSED := Sys(
    Node(End(TermReqSent1, true, false, 1, 1, 0, 0, 0, true), true, 0, Some(0), 1, 0, false, Some(0), [], []),
    Node(End(Active, true, true, 1, 1, 0, 0, 0, true), true, 1, Some(0), 0, 0, false, None, [], []),
    [Hiccup(1)], [PipeTerm],
    Dir([Queue([Delimiter], [], [], false), EMPTY_QUEUE], {}), Dir([EMPTY_QUEUE], {}))

  /** The state in between: only the hiccup has happened. */
  const HICCUPED := Sys(
    Node(End(Active, true, true, 1, 1, 0, 0, 0, true), true, 0, Some(0), 0, 0, false, None, [], []),
    Node(End(Active, true, true, 1, 1, 0, 0, 0, true), true, 1, Some(0), 0, 0, false, None, [], []),
    [Hiccup(1)], [], Dir([EMPTY_QUEUE, EMPTY_QUEUE], {}), Dir([EMPTY_QUEUE], {}))

  lemma HiccupedIsReached()
    ensures StepS(Init(1, 1), Move(R, DoHiccup)) == Go(HICCUPED)
  {
    assert ComputeLwm(1) == 1;
    var s := Flip(Init(1, 1));
    assert Pointers(s);
    assert HiccupL(s).rl.qs == [EMPTY_QUEUE, EMPTY_QUEUE] && HiccupL(s).toR == [Hiccup(1)];
  }

  lemma TerminateCrosses()
    ensures StepS(HICCUPED, Move(L, DoTerminate(true))) == Go(CROSSED)
  {
    assert Pointers(HICCUPED);
    var v := ViewL(HICCUPED);
    var o := Terminate(v, true);
    var q := QWrite(EMPTY_QUEUE, Delimiter, false);
    assert q == Queue([], [Delimiter], [], false) && QFlush(q) == (Queue([Delimiter], [], [], false), true);
    assert o.Ok? && o.v.outq == Some(Queue([Delimiter], [], [], false));
    assert [PipeTerm] + [] == [PipeTerm];
    assert CountCmd([PipeTerm], PipeTerm) == 1 && CountCmd([PipeTerm], PipeTermAck) == 0;
  }

  lemma CrossedIsReached()
    ensures Reached(1, 1, [Move(R, DoHiccup), Move(L, DoTerminate(true))], CROSSED)
  {
    var m1, m2 := Move(R, DoHiccup), Move(L, DoTerminate(true));
    HiccupedIsReached();
    TerminateCrosses();
    assert [m1, m2][1..] == [m2] && Run(CROSSED, []) == Go(CROSSED);
    assert Run(HICCUPED, [m2]) == Go(CROSSED);
  }

  /** pipe_term arrives: the right end waits for the delimiter. */
  lemma CrossedAsked() returns (t: Sys)
    ensures StepS(CROSSED, Move(R, Deliver)) == Go(t)
    ensures t == CROSSED.(r := CROSSED.r.(e := CROSSED.r.e.(phase := WaitingForDelimiter), gotTerm := true), toR := [])
  {
    var s := Flip(CROSSED);
    assert Pointers(s) && s.toL[1..] == [];
    PutSame(s.(toL := []));
    t := StepS(CROSSED, Move(R, Deliver)).s;
  }

  /** The hiccup arrives: the left end switches to the new queue and frees the one with the delimiter. */
  lemma CrossedSwitched(s: Sys) returns (t: Sys)
    requires s.l == CROSSED.l && s.lr == CROSSED.lr && s.rl == CROSSED.rl && s.toL == CROSSED.toL
    ensures StepS(s, Move(L, Deliver)) == Go(t)
    ensures t.r == s.r && t.toL == [] && t.toR == s.toR && t.rl == s.rl && t.lr == s.lr.(freed := {0})
    ensures t.l.alive && t.l.e.phase == TermReqSent1 && t.l.termIx == Some(0) && t.l.outIx == Some(1)
  {
    assert Pointers(s) && s.toL[1..] == [];
    t := StepS(s, Move(L, Deliver)).s;
  }

  /** The right end finds the new queue empty and goes to sleep. */
  lemma CrossedSleeps(s: Sys) returns (t: Sys)
    requires s.r.alive && s.r.e == CROSSED.r.e.(phase := WaitingForDelimiter) && s.r.inIx == 1 && s.r.outIx == Some(0)
    requires s.lr.qs == CROSSED.lr.qs && s.rl == CROSSED.rl && 1 !in s.lr.freed
    ensures StepS(s, Move(R, DoRead)) == Go(t)
    ensures t.l == s.l && t.toL == s.toL && t.toR == s.toR && !t.r.e.inActive
    ensures t.r.alive && t.r.e.phase == WaitingForDelimiter && t.r.inIx == 1
  {
    var u := Flip(s);
    assert Pointers(u);
    assert u.toR + [] == u.toR;
    t := StepS(s, Move(R, DoRead)).s;
  }

  /** A hiccup that crosses the peer's termination drops the queued delimiter: the reader waits, with
      nothing in flight and nothing left to drain. */
  lemma HiccupLosesDelimiter() returns (t: Sys)
    ensures Run(CROSSED, [Move(R, Deliver), Move(L, Deliver), Move(R, DoRead)]) == Go(t)
    ensures Quiescent(t) && Lost(t)
  {
    var m3, m4, m5 := Move(R, Deliver), Move(L, Deliver), Move(R, DoRead);
    var s3 := CrossedAsked();
    var s4 := CrossedSwitched(s3);
    t := CrossedSleeps(s4);
    assert Run(t, []) == Go(t) && Run(s4, [m5]) == Go(t);
    assert [m4, m5][1..] == [m5] && [m3, m4, m5][1..] == [m4, m5];
    assert Run(s3, [m4, m5]) == Go(t);
  }

  // ---- how long a lost delimiter is waited for ----

  /** The end that terminated stays as it is. */
  lemma LostWriterStays(s: Sys, ev: Event)
    requires Ready(s) && s.l.e.phase == TermReqSent1 && StepL(s, ev).Go?
    requires s.toL != [] ==> !s.toL[0].PipeTerm? && !s.toL[0].PipeTermAck?
    ensures var n := StepL(s, ev).s.l; n.alive && n.e.phase == TermReqSent1
  {
    if ev == Deliver && s.toL != [] { WriterHandles(s.(toL := s.toL[1..]), s.toL[0]); }
  }

  lemma WriterHandles(s: Sys, c: Cmd)
    requires Pointers(s) && HandleL(s, c).Go? && !c.PipeTerm? && !c.PipeTermAck?
    ensures HandleL(s, c).s.l.alive == s.l.alive && HandleL(s, c).s.l.e.phase == s.l.e.phase
  {
  }

  /** The end that waits in vain does so whatever it does, other than giving up. */
  lemma LostReaderStays(s: Sys, ev: Event)
    requires Ready(s) && s.l.e.phase == WaitingForDelimiter && StepL(s, ev).Go? && ev != DoTerminate(false)
    requires Delimiter !in ViewL(s).inq.flushed
    requires s.toL != [] ==> Activation(s.toL[0])
    ensures var n := StepL(s, ev).s.l; n.alive && n.e.phase == WaitingForDelimiter && n.inIx == s.l.inIx
  {
    match ev
    case Deliver => if s.toL != [] { WriterHandles(s.(toL := s.toL[1..]), s.toL[0]); HandleKeepsInIx(s.(toL := s.toL[1..]), s.toL[0]); }
    case DoTerminate(_) => LostReaderTerminates(s);
    case _ =>
  }

  lemma LostReaderTerminates(s: Sys)
    requires Ready(s) && s.l.e.phase == WaitingForDelimiter
    ensures StepL(s, DoTerminate(true)).Go?
    ensures var n := StepL(s, DoTerminate(true)).s.l; n.alive && n.e.phase == WaitingForDelimiter && n.inIx == s.l.inIx
  {
    LostReaderViews(ViewL(s));
  }

  lemma LostReaderViews(v: View)
    requires v.outq.Some? && AllMore(v.outq.value.partial) && v.e.phase == WaitingForDelimiter
    ensures var o := Terminate(v, true);
      o.Ok? && o.v.e == v.e.(delay := true, outActive := false) && o.v.inq == v.inq && o.v.outq.Some?
  {
    DelimiterViews(v.(e := v.e.(delay := true)), []);
  }

  /** What the FIFO order says about the commands on their way in such a pair. */
  lemma LostHeads(s: Sys)
    requires Inv(s) && Lost(s)
    ensures s.toL != [] ==> !s.toL[0].PipeTerm? && !s.toL[0].PipeTermAck?
    ensures s.toR != [] ==> Activation(s.toR[0])
  {
    assert Half(s) && Half(Flip(s));
    if s.toL != [] { HeadFacts(s); }
    if s.toR != [] {
      assert Flip(Flip(s)) == s;
      HeadFacts(Flip(s));
      ScanBad(s.toR[1..]);
    }
  }

  /** A lost delimiter stays lost under every move but one: the waiting end gives up. */
  lemma LostLasts(s: Sys, m: Move)
    requires CloseInv(s) && Lost(s) && m != Move(R, DoTerminate(false))
    ensures StepS(s, m).Go? && Lost(StepS(s, m).s)
  {
    StepOk(s, m);
    LostHeads(s);
    StepTermIx(s, m);
    StepOnce(s, m);
    if m.side == L {
      InvReady(s);
      LostWriterStays(s, m.ev);
      StepLPeer(s, m.ev);
    } else {
      LostReaderMoves(s, m.ev);
    }
  }

  /** pipe_term is sent once. */
  lemma StepOnce(s: Sys, m: Move)
    requires Inv(s) && s.l.terms == 1
    ensures StepS(s, m).Go? && StepS(s, m).s.l.terms <= 1
  {
    StepOk(s, m);
  }

  lemma LostReaderMoves(s: Sys, ev: Event)
    requires CloseInv(s) && Lost(s) && ev != DoTerminate(false) && StepL(Flip(s), ev).Go?
    requires s.toR != [] ==> Activation(s.toR[0])
    ensures var t := Flip(StepL(Flip(s), ev).s);
      t.l == s.l && t.r.alive && t.r.e.phase == WaitingForDelimiter && t.r.inIx == s.r.inIx
  {
    var u := Flip(s);
    assert Flip(u) == s;
    InvReady(u);
    DelimiterQueue(s);
    LostReaderStays(u, ev);
    StepLPeer(u, ev);
  }

  lemma {:induction false} LostRun(s: Sys, ms: seq<Move>)
    requires CloseInv(s) && Lost(s) && Move(R, DoTerminate(false)) !in ms
    ensures Run(s, ms).Go? && Lost(Run(s, ms).s)
    decreases |ms|
  {
    if ms != [] {
      LostLasts(s, ms[0]);
      StepCloses(s, ms[0]);
      LostRun(StepS(s, ms[0]).s, ms[1..]);
    }
  }

  /** So the end waits in vain for as long as it does not give up ... */
  lemma LostUntilGivenUp(hwmLR: int, hwmRL: int, ms: seq<Move>, s: Sys, ns: seq<Move>)
    requires Reached(hwmLR, hwmRL, ms, s) && Lost(s) && Move(R, DoTerminate(false)) !in ns
    ensures Run(s, ns).Go? && Lost(Run(s, ns).s)
  {
    ReachedCloses(hwmLR, hwmRL, ms, s);
    LostRun(s, ns);
  }

  /** ... and once it does, the pair closes. */
  lemma GivingUpCloses(hwmLR: int, hwmRL: int, ms: seq<Move>, s: Sys, u: Sys, ds: seq<Move>, t: Sys)
    requires Reached(hwmLR, hwmRL, ms, s) && Lost(s) && StepS(s, Move(R, DoTerminate(false))) == Go(u)
    requires DrainRun(u, ds) && Run(u, ds) == Go(t) && Quiescent(t)
    ensures Closed(t)
  {
    ReachedCloses(hwmLR, hwmRL, ms, s);
    StepCloses(s, Move(R, DoTerminate(false)));
    GivenUp(s, u);
    DrainedShape(u, ds, t);
    NotWaiting(u, t);
  }

  lemma NotWaiting(u: Sys, t: Sys)
    requires Rank(u.l) <= 2 && Rank(u.r) <= 1 && Rank(t.l) <= Rank(u.l) && Rank(t.r) <= Rank(u.r)
    ensures !Untouched(t) && !Lost(t) && !Lost(Flip(t))
  {
  }

  lemma GivenUp(s: Sys, u: Sys)
    requires CloseInv(s) && Lost(s) && StepS(s, Move(R, DoTerminate(false))) == Go(u)
    ensures Rank(u.l) <= 2 && Rank(u.r) <= 1
  {
    assert Flip(Flip(s)) == s;
    InvReady(Flip(s));
    StepLPeer(Flip(s), DoTerminate(false));
  }
}
