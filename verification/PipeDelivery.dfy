/** What a pipe has to do, and not only what it must not: messages below the watermark are accepted,
    flushed ones are read, and a hiccup gives back what it throws away. */
module PipeDelivery {
  import opened Basics
  import opened PipeEnd
  import opened PipePair
  import opened PipeSafety
  import opened PipeClose
  import opened PipeFlow

  // ---- the watermarks ----

  /** The reader reports 1024 messages below a high watermark above 2048, and otherwise whenever it has
      read half of it, rounded up. */
  lemma LwmValue(hwm: int)
    ensures hwm > 2048 ==> ComputeLwm(hwm) == hwm - 1024
    ensures 0 < hwm <= 2048 ==> hwm <= 2 * ComputeLwm(hwm) <= hwm + 1
    ensures ComputeLwm(hwm) > 0 <==> hwm > 0
  {}

  /** A whole message is the last part of one that does not carry an identity. */
  function Wholes(fs: seq<Frame>): set<nat> {
    set i: nat | i < |fs| && fs[i].Part? && !fs[i].more && !fs[i].identity
  }

  lemma {:induction false} MsgsAreWholes(fs: seq<Frame>)
    ensures Msgs(fs) == |Wholes(fs)|
    decreases |fs|
  {
    if fs != [] {
      var n := |fs| - 1;
      MsgsAreWholes(fs[..n]);
      if fs[n].Part? && !fs[n].more && !fs[n].identity {
        assert Wholes(fs) == Wholes(fs[..n]) + {n};
      } else {
        assert Wholes(fs) == Wholes(fs[..n]);
      }
    }
  }

  /** What the count of an active end says. */
  lemma CanWrite(hwmLR: int, hwmRL: int, ms: seq<Move>, s: Sys)
    requires Reachable(hwmLR, hwmRL, ms, s) && s.l.alive && s.l.e.phase == Active
    ensures Pointers(s) && OneEach(s) && s.l.outIx == Some(0)
    ensures Accepts(s) <==> hwmLR <= 0 || |Wholes(s.l.committed)| - s.l.e.peersMsgsRead < hwmLR
  {
    ReachableFlows(hwmLR, hwmRL, ms, s);
    RunKeepsHwm(Init(hwmLR, hwmRL), ms);
    MsgsAreWholes(s.l.committed);
    ActiveCounts(s);
  }

  lemma ActiveCounts(s: Sys)
    requires FlowInv(s) && s.l.alive && s.l.e.phase == Active
    ensures Pointers(s) && OneEach(s) && s.l.outIx == Some(0)
    ensures Accepts(s) <==> s.l.e.hwm <= 0 || Msgs(s.l.committed) - s.l.e.peersMsgsRead < s.l.e.hwm
  {
    InvFlowReady(s);
    assert NodeOk(s.l);
  }

  /** An active end accepts a part exactly while fewer messages than the high watermark were written
      and not yet reported read; without a watermark it accepts all of them. */
  lemma AcceptsBelowWatermark(hwmLR: int, hwmRL: int, ms: seq<Move>, s: Sys, f: Frame)
    requires Reachable(hwmLR, hwmRL, ms, s) && f.Part? && s.l.alive && s.l.e.phase == Active
    ensures Pointers(s)
    ensures Write(ViewL(s), f).1 <==> hwmLR <= 0 || |Wholes(s.l.committed)| - s.l.e.peersMsgsRead < hwmLR
  {
    CanWrite(hwmLR, hwmRL, ms, s);
  }

  /** An accepted part follows all earlier ones, and the last one completes the message. */
  lemma AcceptedIsWritten(hwmLR: int, hwmRL: int, ms: seq<Move>, s: Sys, more: bool, identity: bool, body: int)
    requires Reachable(hwmLR, hwmRL, ms, s) && s.l.alive && s.l.e.phase == Active
    requires hwmLR <= 0 || |Wholes(s.l.committed)| - s.l.e.peersMsgsRead < hwmLR
    ensures var r := StepS(s, Move(L, DoWrite(more, identity, body)));
      && r.Go? && |s.lr.qs| == 1 && |r.s.lr.qs| == 1
      && var was, now := s.lr.qs[0].partial, r.s.lr.qs[0].partial;
         && r.s.l.committed + now == s.l.committed + was + [Part(more, identity, body)]
         && (!more ==> now == [])
  {
    CanWrite(hwmLR, hwmRL, ms, s);
    WrittenPart(s, Part(more, identity, body));
  }

  lemma WrittenPart(s: Sys, f: Frame)
    requires Pointers(s) && OneEach(s) && f.Part? && Accepts(s)
    ensures WriteL(s, f).Go? && |WriteL(s, f).s.lr.qs| == 1
    ensures var t := WriteL(s, f).s;
      && t.l.committed + t.lr.qs[0].partial == s.l.committed + s.lr.qs[0].partial + [f]
      && (!f.more ==> t.lr.qs[0].partial == [])
  {
    AcceptedStep(s, f);
  }

  /** A rollback drops the unfinished message and nothing else. */
  lemma RollbackDrops(hwmLR: int, hwmRL: int, ms: seq<Move>, s: Sys)
    requires Reached(hwmLR, hwmRL, ms, s) && s.l.alive && s.l.outIx.Some?
    ensures s.l.outIx.value < |s.lr.qs|
    ensures var k := s.l.outIx.value;
      StepS(s, Move(L, DoRollback)) == Go(s.(lr := s.lr.(qs := s.lr.qs[k := s.lr.qs[k].(partial := [])])))
  {
    ReachedCloses(hwmLR, hwmRL, ms, s);
    InvReady(s);
    assert s.toR + [] == s.toR && CountCmd([], PipeTerm) == 0 && CountCmd([], PipeTermAck) == 0;
    assert s.rl.qs[s.l.inIx := s.rl.qs[s.l.inIx]] == s.rl.qs;
  }

  // ---- flushed messages are read ----

  /** Everything the right end has written is visible to the left one, or about to be announced. */
  predicate Visible(s: Sys) {
    |s.rl.qs| == 1 && s.rl.qs[0].complete == []
  }

  lemma FlushL(s: Sys)
    requires Pointers(s) && s.l.alive && s.l.outIx == Some(0) && |s.lr.qs| == 1 && s.l.e.phase != TermAckSent
    ensures StepL(s, DoFlush).Go? && Visible(Flip(StepL(s, DoFlush).s)) && StepL(s, DoFlush).s.l == s.l
  {}

  /** The reader handles commands. */
  lemma HandleKeepsVisible(s: Sys, c: Cmd)
    requires Pointers(s) && Visible(s) && s.l.inIx == 0 && HandleL(s, c).Go?
    ensures Visible(HandleL(s, c).s) && HandleL(s, c).s.l.delivered == s.l.delivered
    ensures HandleL(s, c).s.toL == s.toL
  {}

  /** All of a schedule's moves deliver commands to the left end. */
  predicate ToReader(ms: seq<Move>) { forall m <- ms :: m == Move(L, Deliver) }

  lemma DeliverKeepsVisible(s: Sys)
    requires FlowInv(s) && Visible(s)
    ensures StepL(s, Deliver).Go? && FlowInv(StepL(s, Deliver).s) && Visible(StepL(s, Deliver).s)
    ensures StepL(s, Deliver).s.r == s.r
  {
    StepFlows(s, Move(L, Deliver));
    StepLPeer(s, Deliver);
    DeliveredVisible(s);
  }

  lemma DeliveredVisible(s: Sys)
    requires Visible(s) && s.l.inIx == 0 && StepL(s, Deliver).Go?
    ensures Visible(StepL(s, Deliver).s)
  {
    if s.l.alive && s.toL != [] { HandleKeepsVisible(s.(toL := s.toL[1..]), s.toL[0]); }
  }

  lemma {:induction false} DeliveriesKeepVisible(s: Sys, ds: seq<Move>)
    requires FlowInv(s) && Visible(s) && ToReader(ds)
    ensures Run(s, ds).Go? && FlowInv(Run(s, ds).s) && Visible(Run(s, ds).s) && Run(s, ds).s.r == s.r
    decreases |ds|
  {
    if ds != [] {
      assert ds[0] in ds;
      assert forall m <- ds[1..] :: m in ds;
      DeliverKeepsVisible(s);
      DeliveriesKeepVisible(StepL(s, Deliver).s, ds[1..]);
    }
  }

  predicate OnlyReads(ms: seq<Move>) { forall m <- ms :: m == Move(L, DoRead) }

  /** A reader that has handled its commands and still has `n` parts to read. */
  ghost predicate ToRead(s: Sys, n: nat) {
    FlowInv(s) && Visible(s) && Reads(s.l) && s.toL == [] && |s.r.committed| == |s.l.delivered| + n
  }

  /** It gets the next one. */
  lemma GetsNext(s: Sys, n: nat) returns (t: Sys)
    requires ToRead(s, n) && n > 0
    ensures StepS(s, Move(L, DoRead)) == Go(t) && ToRead(t, n - 1) && t.r == s.r
  {
    StepFlows(s, Move(L, DoRead));
    StepLPeer(s, DoRead);
    InvFlowReady(s);
    PartInFront(s, n);
    PartReadStep(s);
    t := AfterPart(s);
  }

  lemma PartInFront(s: Sys, n: nat)
    requires ToRead(s, n) && n > 0
    ensures s.l.e.inActive && !s.rl.qs[0].asleep && s.rl.qs[0].flushed != [] && s.rl.qs[0].flushed[0].Part?
  {
    InvFlowReady(s);
    assert CloseHalf(Flip(s)) && DataOk(Flip(s));
    var q, d := s.rl.qs[0], s.l.delivered;
    var rest := s.r.committed[|d|..];
    assert rest != [] && q.flushed + q.complete == q.flushed;
    assert (rest + Tail(Flip(s)))[0] == rest[0] && rest[0] in s.r.committed;
  }

  lemma RunNext(s: Sys, t: Sys, ms: seq<Move>)
    requires ms != [] && StepS(s, ms[0]) == Go(t)
    ensures Run(s, ms) == Run(t, ms[1..])
  {}

  lemma DeliveredIsPrefix(s: Sys)
    requires FlowInv(s)
    ensures s.l.delivered <= s.r.committed
  {
    assert DataOk(Flip(s));
  }

  lemma ReadsNext(ms: seq<Move>)
    requires OnlyReads(ms) && ms != []
    ensures ms[0] == Move(L, DoRead) && OnlyReads(ms[1..])
  {
    assert ms[0] in ms && forall m <- ms[1..] :: m in ms;
  }

  lemma {:induction false} ReadsAll(s: Sys, ms: seq<Move>) returns (t: Sys)
    requires ToRead(s, |ms|) && OnlyReads(ms)
    ensures Run(s, ms) == Go(t) && t.l.delivered == s.r.committed
    decreases |ms|
  {
    if ms == [] {
      DeliveredIsPrefix(s);
      t := s;
    } else {
      ReadsNext(ms);
      var u := GetsNext(s, |ms|);
      t := ReadsAll(u, ms[1..]);
      RunNext(s, u, ms);
    }
  }

  /** After a flush, and once the reader has handled its commands, it gets every whole message written,
      one part with each read: whatever came before, unless it no longer reads by then. */
  lemma FlushedIsRead(hwmLR: int, hwmRL: int, ms: seq<Move>, s: Sys, a: Sys, ds: seq<Move>, t: Sys, rs: seq<Move>)
    returns (u: Sys)
    requires Reachable(hwmLR, hwmRL, ms, s) && s.r.alive && s.r.outIx.Some?
    requires StepS(s, Move(R, DoFlush)) == Go(a) && ToReader(ds) && Run(a, ds) == Go(t)
    requires Reads(t.l) && t.toL == []
    requires OnlyReads(rs) && |t.l.delivered| + |rs| == |s.r.committed|
    ensures Run(t, rs) == Go(u) && u.l.delivered == s.r.committed
  {
    ReachableFlows(hwmLR, hwmRL, ms, s);
    FlushedIsVisible(s);
    DeliveriesKeepVisible(a, ds);
    u := ReadsAll(t, rs);
  }

  lemma FlushedIsVisible(s: Sys)
    requires FlowInv(s) && s.r.alive && s.r.outIx.Some?
    ensures StepS(s, Move(R, DoFlush)).Go?
    ensures var a := StepS(s, Move(R, DoFlush)).s; FlowInv(a) && Visible(a) && a.r == s.r
  {
    FlushReady(s);
    FlushL(Flip(s));
    StepFlows(s, Move(R, DoFlush));
  }

  lemma FlushReady(s: Sys)
    requires FlowInv(s) && s.r.alive && s.r.outIx.Some?
    ensures Pointers(Flip(s)) && s.r.outIx == Some(0) && |s.rl.qs| == 1 && s.r.e.phase != TermAckSent
  {
    FlipFlows(s);
    InvFlowReady(Flip(s));
    assert NodeOk(s.r);
  }

  // ---- hiccups ----

  /** The last parts of messages, and delimiters, among the frames. */
  function Lasts(fs: seq<Frame>): set<nat> {
    set i: nat | i < |fs| && !(fs[i].Part? && fs[i].more)
  }

  lemma {:induction false} NotMoreAppend(fs: seq<Frame>, f: Frame)
    ensures NotMore(fs + [f]) == NotMore(fs) + if f.Part? && f.more then 0 else 1
    decreases |fs|
  {
    if fs == [] {
      assert fs + [f] == [f];
    } else {
      assert (fs + [f])[1..] == fs[1..] + [f];
      NotMoreAppend(fs[1..], f);
    }
  }

  lemma {:induction false} NotMoreIsLasts(fs: seq<Frame>)
    ensures NotMore(fs) == |Lasts(fs)|
    decreases |fs|
  {
    if fs != [] {
      var n := |fs| - 1;
      NotMoreIsLasts(fs[..n]);
      NotMoreAppend(fs[..n], fs[n]);
      assert fs == fs[..n] + [fs[n]];
      assert Lasts(fs) == if fs[n].Part? && fs[n].more then Lasts(fs[..n]) else Lasts(fs[..n]) + {n};
    }
  }

  /** What a hiccup does to the end that writes. */
  function TakenBack(e: End, q: Queue): End {
    e.(outActive := true, msgsWritten := e.msgsWritten - |Lasts(q.flushed + q.complete)|)
  }

  lemma HiccupHandler(v: View, newq: Queue)
    requires v.outq.Some? && (v.outq.value.asleep ==> v.outq.value.flushed == [])
    ensures ProcessHiccup(v, newq) == Ok(v.(e := TakenBack(v.e, v.outq.value), outq := Some(newq)), [])
  {
    NotMoreIsLasts(Drainable(v.outq.value));
    assert v.outq.value.flushed == [] ==> v.outq.value.flushed + [] == [];
  }

  /** A hiccup arrives in any run: the writer goes on with the new queue and may write at once, the old
      queue is freed, and the messages in it that were never read no longer count as written. */
  lemma HiccupTakesBack(hwmLR: int, hwmRL: int, ms: seq<Move>, s: Sys)
    requires Reached(hwmLR, hwmRL, ms, s) && s.l.alive && s.toL != [] && s.toL[0].Hiccup?
    ensures s.l.outIx.Some? && s.l.outIx.value < |s.lr.qs| && StepS(s, Move(L, Deliver)).Go?
    ensures var t := StepS(s, Move(L, Deliver)).s;
      && t.l.outIx == Some(s.toL[0].queue) && t.l.e == TakenBack(s.l.e, s.lr.qs[s.l.outIx.value])
      && t.lr == s.lr.(freed := s.lr.freed + {s.l.outIx.value})
  {
    ReachedCloses(hwmLR, hwmRL, ms, s);
    OldQueue(s);
    var v := ViewL(s.(toL := s.toL[1..]));
    HiccupHandler(v, s.lr.qs[s.toL[0].queue]);
  }

  lemma OldQueue(s: Sys)
    requires CloseInv(s) && s.l.alive && s.toL != [] && s.toL[0].Hiccup?
    ensures Pointers(s) && s.l.outIx.Some? && s.toL[0].queue < |s.lr.qs| && s.toL[0].queue !in s.lr.freed
    ensures var q := s.lr.qs[s.l.outIx.value]; q.asleep ==> q.flushed == []
  {
    HiccupPopped(s);
    assert s.lr.qs[s.l.outIx.value] in s.lr.qs;
  }
}
