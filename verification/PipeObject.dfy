/** pipe_t and the queue it works on as mutable objects.  Every method is proved
    against the value-level behaviour in PipeEnd; commands go to the `sent` log. */
module PipeObject {
  import opened Basics
  import opened PipeEnd
  import E = PipeEnd

  class Ypipe {
    const id: nat
    var flushed: seq<Frame>
    var complete: seq<Frame>
    var partial: seq<Frame>
    var asleep: bool

    function Look(): Queue
      reads this
    {
      Queue(flushed, complete, partial, asleep)
    }

    constructor (id: nat)
      ensures Look() == EMPTY_QUEUE && this.id == id
    {
      this.id := id;
      flushed, complete, partial, asleep := [], [], [], false;
    }

    method Write(f: Frame, incomplete: bool)
      modifies this
      ensures Look() == QWrite(old(Look()), f, incomplete)
    {
      partial := partial + [f];
      if !incomplete {
        complete, partial := complete + partial, [];
      }
    }

    method Unwrite() returns (r: Option<Frame>)
      modifies this`partial
      ensures r.None? <==> old(partial) == []
      ensures r.None? ==> partial == old(partial)
      ensures r.Some? ==> old(partial) == partial + [r.value]
    {
      if partial == [] { return None; }
      r := Some(partial[|partial| - 1]);
      partial := partial[..|partial| - 1];
    }

    method Flush() returns (awake: bool)
      modifies this
      ensures (Look(), awake) == QFlush(old(Look()))
    {
      if complete == [] { return true; }
      awake := !asleep;
      flushed, complete, asleep := flushed + complete, [], false;
    }

    method CheckRead() returns (ok: bool)
      modifies this`asleep
      ensures (Look(), ok) == QCheckRead(old(Look()))
      ensures ok ==> flushed != []
    {
      if !asleep && flushed == [] { asleep := true; }
      ok := !asleep;
    }

    method Read() returns (r: Option<Frame>)
      modifies this
      ensures var (q, ok) := QCheckRead(old(Look()));
        if ok then r == Some(q.flushed[0]) && Look() == QPop(q) else r == None && Look() == q
    {
      var ok := CheckRead();
      if !ok { return None; }
      r := Some(flushed[0]);
      flushed := flushed[1..];
    }

    /** Reads until nothing is left, counting the parts without the more flag. */
    method Drain() returns (n: nat)
      modifies this
      ensures n == if old(asleep) then 0 else NotMore(old(flushed))
      ensures asleep && (old(asleep) || flushed == [])
    {
      n := 0;
      ghost var all := if asleep then 0 else NotMore(flushed);
      var msg := Read();
      while msg.Some?
        invariant msg.Some? ==> !asleep && all == n + NotMore(flushed) + if msg.value.Part? && msg.value.more then 0 else 1
        invariant msg.None? ==> asleep && (old(asleep) || flushed == []) && all == n
        decreases |flushed|, msg.Some?
      {
        if !(msg.value.Part? && msg.value.more) { n := n + 1; }
        msg := Read();
      }
    }
  }

  /** Commands already sent only precede those of closing the outbound direction. */
  lemma CloseOutboundPrefix(v: View, first: seq<Cmd>)
    ensures var o, p := E.CloseOutbound(v, []), E.CloseOutbound(v, first);
      (o.Ok? <==> p.Ok?) && (o.Ok? ==> p == Ok(o.v, first + o.sent))
  {
  }

  class Pipe {
    var inpipe: Ypipe?
    var outpipe: Ypipe?
    var inActive: bool
    var outActive: bool
    var hwm: int
    var lwm: int
    var msgsRead: nat
    var msgsWritten: int
    var peersMsgsRead: nat
    var state: Phase
    var delay: bool
    var sent: seq<Cmd>
    var deleted: bool

    ghost predicate Valid()
      reads this
    {
      inpipe != null && inpipe != outpipe && !deleted
    }

    ghost function Fields(): End
      reads this
    {
      End(state, inActive, outActive, hwm, lwm, msgsRead, msgsWritten, peersMsgsRead, delay)
    }

    ghost function Look(): View
      reads this, inpipe, outpipe
      requires Valid()
    {
      View(Fields(), inpipe.Look(), if outpipe == null then None else Some(outpipe.Look()))
    }

    constructor (inpipe: Ypipe, outpipe: Ypipe, inHwm: int, outHwm: int)
      requires inpipe != outpipe
      ensures Valid() && this.inpipe == inpipe && this.outpipe == outpipe
      ensures Fields() == NewEnd(inHwm, outHwm) && sent == []
    {
      this.inpipe, this.outpipe := inpipe, outpipe;
      inActive, outActive := true, true;
      hwm, lwm := outHwm, ComputeLwm(inHwm);
      msgsRead, msgsWritten, peersMsgsRead := 0, 0, 0;
      state, delay, sent, deleted := Active, true, [], false;
    }

    method ProcessDelimiter()
      requires Valid() && Readable(state)
      modifies this
      ensures Valid() && inpipe == old(inpipe) && (outpipe == old(outpipe) || outpipe == null)
      ensures var (w, c) := E.ProcessDelimiter(old(Look())); Look() == w && sent == old(sent) + c
    {
      if state == Active {
        state := DelimiterReceived;
      } else {
        outpipe := null;
        sent := sent + [PipeTermAck];
        state := TermAckSent;
      }
    }

    method CheckRead() returns (ok: bool)
      requires Valid()
      modifies this, inpipe
      ensures Valid() && inpipe == old(inpipe) && (outpipe == old(outpipe) || outpipe == null)
      ensures var r := E.CheckRead(old(Look())); Look() == r.v && sent == old(sent) + r.sent && ok == r.got.Some?
    {
      if !inActive { return false; }
      if state != Active && state != WaitingForDelimiter { return false; }
      var some := inpipe.CheckRead();
      if !some {
        inActive := false;
        return false;
      }
      if inpipe.flushed[0].Delimiter? {
        var msg := inpipe.Read();
        ProcessDelimiter();
        return false;
      }
      return true;
    }

    method Read() returns (got: Option<Frame>)
      requires Valid()
      modifies this, inpipe
      ensures Valid() && inpipe == old(inpipe) && (outpipe == old(outpipe) || outpipe == null)
      ensures var r := E.Read(old(Look())); Look() == r.v && sent == old(sent) + r.sent && got == r.got
    {
      if !inActive { return None; }
      if state != Active && state != WaitingForDelimiter { return None; }
      got := inpipe.Read();
      if got.None? {
        inActive := false;
        return None;
      }
      if got.value.Delimiter? {
        ProcessDelimiter();
        return None;
      }
      CountPart(got.value);
    }

    /** Counts a message read, and now and then tells the writer. */
    method CountPart(f: Frame)
      requires f.Part?
      modifies this`msgsRead, this`sent
      ensures msgsRead == old(msgsRead) + if f.more || f.identity then 0 else 1
      ensures sent == old(sent) + if lwm > 0 && msgsRead % lwm == 0 then [ActivateWrite(msgsRead)] else []
    {
      if !f.more && !f.identity { msgsRead := msgsRead + 1; }
      if lwm > 0 && msgsRead % lwm == 0 { sent := sent + [ActivateWrite(msgsRead)]; }
    }

    method CheckWrite() returns (ok: bool)
      requires Valid()
      modifies this`outActive
      ensures Valid() && (Look(), ok) == E.CheckWrite(old(Look()))
    {
      if !outActive || state != Active { return false; }
      var full := hwm > 0 && msgsWritten - peersMsgsRead == hwm;
      if full {
        outActive := false;
        return false;
      }
      return true;
    }

    method Write(f: Frame) returns (ok: bool)
      requires Valid() && f.Part? && E.Write(Look(), f).0.Some?
      modifies this, outpipe
      ensures Valid() && inpipe == old(inpipe) && outpipe == old(outpipe) && sent == old(sent)
      ensures (Some(Look()), ok) == E.Write(old(Look()), f)
    {
      ok := CheckWrite();
      if !ok { return; }
      outpipe.Write(f, f.more);
      if !f.more && !f.identity { msgsWritten := msgsWritten + 1; }
    }

    /** Pops the unfinished message part by part; each must carry the more flag. */
    method Rollback()
      requires Valid() && E.Rollback(Look()).Ok?
      modifies outpipe
      ensures Valid() && Look() == E.Rollback(old(Look())).v
    {
      if outpipe == null { return; }
      ghost var all := outpipe.partial;
      var msg := outpipe.Unwrite();
      while msg.Some?
        invariant Valid()
        invariant outpipe.flushed == old(outpipe.flushed) && outpipe.complete == old(outpipe.complete)
        invariant outpipe.asleep == old(outpipe.asleep) && inpipe.Look() == old(inpipe.Look())
        invariant msg.Some? ==> |outpipe.partial| < |all| && msg.value == all[|outpipe.partial|]
        invariant msg.None? ==> outpipe.partial == []
        invariant outpipe.partial <= all
        decreases |outpipe.partial| + if msg.Some? then 1 else 0
      {
        assert msg.value in all;
        assert msg.value.more;
        ghost var was := outpipe.partial;
        msg := outpipe.Unwrite();
        if msg.Some? { assert was[|outpipe.partial|] == msg.value; }
      }
    }

    method Flush()
      requires Valid()
      modifies this`sent, outpipe
      ensures Valid() && var (w, c) := E.Flush(old(Look())); Look() == w && sent == old(sent) + c
    {
      if state == TermAckSent { return; }
      if outpipe != null {
        var awake := outpipe.Flush();
        if !awake { sent := sent + [ActivateRead]; }
      }
    }

    method ProcessActivateRead()
      requires Valid()
      modifies this`inActive
      ensures Valid() && Look() == E.ProcessActivateRead(old(Look()))
    {
      if !inActive && (state == Active || state == WaitingForDelimiter) { inActive := true; }
    }

    method ProcessActivateWrite(n: nat)
      requires Valid()
      modifies this`peersMsgsRead, this`outActive
      ensures Valid() && Look() == E.ProcessActivateWrite(old(Look()), n)
    {
      peersMsgsRead := n;
      if !outActive && state == Active { outActive := true; }
    }

    /** Drains the old outbound queue, taking back the count of every part without the more flag. */
    method ProcessHiccup(newq: Ypipe)
      requires Valid() && outpipe != null && newq != inpipe && newq != outpipe
      modifies this`msgsWritten, this`outpipe, this`outActive, outpipe
      ensures Valid() && outpipe == newq && newq.Look() == old(newq.Look())
      ensures E.ProcessHiccup(old(Look()), newq.Look()).Ok?
      ensures Look() == E.ProcessHiccup(old(Look()), newq.Look()).v
    {
      ghost var q := outpipe.Look();
      var awake := outpipe.Flush();
      assert q.flushed + [] == q.flushed;
      var n := outpipe.Drain();
      msgsWritten := msgsWritten - n;
      outpipe := newq;
      outActive := true;
    }

    method ProcessPipeTerm()
      requires Valid() && E.ProcessPipeTerm(Look()).Ok?
      modifies this`state, this`outpipe, this`sent
      ensures Valid() && (outpipe == old(outpipe) || outpipe == null)
      ensures old(sent) <= sent && Ok(Look(), sent[|old(sent)|..]) == E.ProcessPipeTerm(old(Look()))
    {
      if state == Active {
        if !delay {
          state, outpipe, sent := TermAckSent, null, sent + [PipeTermAck];
        } else {
          state := WaitingForDelimiter;
        }
        return;
      }
      if state == DelimiterReceived {
        state, outpipe, sent := TermAckSent, null, sent + [PipeTermAck];
        return;
      }
      assert state == TermReqSent1;
      state, outpipe, sent := TermReqSent2, null, sent + [PipeTermAck];
    }

    /** Deallocates the end: the inbound queue is emptied first. */
    method ProcessPipeTermAck()
      requires Valid() && E.ProcessPipeTermAck(Look()).Ok?
      modifies this`outpipe, this`sent, this`deleted, this`inpipe, inpipe
      ensures deleted && inpipe == null && outpipe == (if state == TermReqSent1 then null else old(outpipe))
      ensures sent == old(sent) + E.ProcessPipeTermAck(old(Look())).sent
      ensures old(inpipe).flushed == [] || old(inpipe.asleep)
    {
      if state == TermReqSent1 {
        outpipe := null;
        sent := sent + [PipeTermAck];
      } else {
        assert state == TermAckSent || state == TermReqSent2;
      }
      var n := inpipe.Drain();
      inpipe := null;
      deleted := true;
    }

    method SetNoDelay()
      requires Valid()
      modifies this`delay
      ensures Valid() && Look() == old(Look()).(e := old(Fields()).(delay := false))
    {
      delay := false;
    }

    /** The tail of Terminate: stop writing, drop the unfinished message, append the delimiter. */
    method CloseOutbound()
      requires Valid() && E.CloseOutbound(Look(), []).Ok?
      modifies this`outActive, this`sent, outpipe
      ensures Valid()
      ensures old(sent) <= sent && Ok(Look(), sent[|old(sent)|..]) == E.CloseOutbound(old(Look()), [])
    {
      outActive := false;
      if outpipe != null {
        Rollback();
        outpipe.Write(Delimiter, false);
        Flush();
        assert sent[|old(sent)|..] == [] + sent[|old(sent)|..];
      }
    }

    method BeginTerminate(delay': bool) returns (close: bool)
      requires Valid()
      modifies this`delay, this`state, this`outpipe, this`sent
      ensures Valid() && (outpipe == old(outpipe) || outpipe == null)
      ensures old(sent) <= sent && (Look(), sent[|old(sent)|..], close) == E.BeginTerminate(old(Look()), delay')
    {
      delay := delay';
      assert sent[|sent|..] == [];
      if state == TermReqSent1 || state == TermReqSent2 {
        return false;
      } else if state == TermAckSent {
        return false;
      } else if state == Active {
        sent := sent + [PipeTerm];
        state := TermReqSent1;
      } else if state == WaitingForDelimiter && !delay {
        outpipe := null;
        sent := sent + [PipeTermAck];
        state := TermAckSent;
      } else if state == WaitingForDelimiter {
      } else {
        assert state == DelimiterReceived;
        sent := sent + [PipeTerm];
        state := TermReqSent1;
      }
      close := true;
    }

    method Terminate(delay': bool)
      requires Valid() && E.Terminate(Look(), delay').Ok?
      modifies this`delay, this`state, this`outpipe, this`outActive, this`sent, outpipe
      ensures Valid() && (outpipe == old(outpipe) || outpipe == null)
      ensures old(sent) <= sent && Ok(Look(), sent[|old(sent)|..]) == E.Terminate(old(Look()), delay')
    {
      var close := BeginTerminate(delay');
      if !close { return; }
      ghost var first := sent[|old(sent)|..];
      CloseOutboundPrefix(Look(), first);
      CloseOutbound();
      assert sent[|old(sent)|..] == first + sent[|old(sent)| + |first|..];
    }

    /** A new inbound queue is opened and announced to the peer, unless termination is under way. */
    method Hiccup(id: nat) returns (q: Ypipe?)
      requires Valid()
      modifies this`inpipe, this`inActive, this`sent
      ensures Valid() && outpipe == old(outpipe)
      ensures state != Active ==> q == null && Look() == old(Look()) && sent == old(sent)
      ensures state == Active ==>
        && q != null && fresh(q) && inpipe == q && q.id == id
        && Look() == old(Look()).(e := old(Fields()).(inActive := true), inq := EMPTY_QUEUE)
        && sent == old(sent) + [Cmd.Hiccup(id)]
    {
      if state != Active { return null; }
      inpipe := null;
      q := new Ypipe(id);
      inpipe := q;
      inActive := true;
      sent := sent + [Cmd.Hiccup(id)];
    }
  }
}
