/** Flow control and delivery over runs without hiccups: the watermark credit
    scheme, in-order delivery and message atomicity. */
module PipeFlow {
  import opened Basics
  import opened PipeEnd
  import opened PipePair
  import opened PipeSafety
  import opened PipeClose

  // ---- counting messages ----

  /** Number of whole, non-identity messages in a run of parts. */
  function Msgs(fs: seq<Frame>): nat
    decreases |fs|
  {
    if fs == [] then 0 else Msgs(fs[..|fs| - 1]) + if Counted(fs[|fs| - 1]) then 1 else 0
  }

  lemma {:induction false} MsgsAppend(a: seq<Frame>, b: seq<Frame>)
    ensures Msgs(a + b) == Msgs(a) + Msgs(b)
    decreases |b|
  {
    if b == [] {
      assert a + b == a;
    } else {
      assert (a + b)[..|a + b| - 1] == a + b[..|b| - 1];
      MsgsAppend(a, b[..|b| - 1]);
    }
  }

  lemma {:induction false} MsgsOfPartial(fs: seq<Frame>)
    requires AllMore(fs)
    ensures Msgs(fs) == 0
    decreases |fs|
  {
    if fs != [] {
      assert fs[|fs| - 1] in fs;
      MsgsOfPartial(fs[..|fs| - 1]);
    }
  }

  /** No unfinished message at the end. */
  predicate EndsWhole(fs: seq<Frame>) {
    fs == [] || fs[|fs| - 1].Delimiter? || !fs[|fs| - 1].more
  }

  predicate MidMessage(fs: seq<Frame>) { !EndsWhole(fs) }

  // ---- credits in flight ----

  /** The newest read count among the commands, starting from `x`. */
  function Credit(cs: seq<Cmd>, x: nat): nat
    decreases |cs|
  {
    if cs == [] then x else Credit(cs[1..], if cs[0].ActivateWrite? then cs[0].msgsRead else x)
  }

  /** The read counts on their way never go down and stay between `x` and `hi`. */
  predicate CreditsUp(cs: seq<Cmd>, x: nat, hi: nat)
    decreases |cs|
  {
    if cs == [] then x <= hi
    else if cs[0].ActivateWrite? then x <= cs[0].msgsRead && CreditsUp(cs[1..], cs[0].msgsRead, hi)
    else CreditsUp(cs[1..], x, hi)
  }

  lemma {:induction false} CreditAppend(cs: seq<Cmd>, ds: seq<Cmd>, x: nat, hi: nat)
    requires CreditsUp(cs, x, hi) && CreditsUp(ds, hi, hi) && (forall d <- ds :: d.ActivateWrite? ==> d.msgsRead == hi)
    ensures CreditsUp(cs + ds, x, hi)
    ensures Credit(cs + ds, x) == Credit(ds, Credit(cs, x))
    decreases |cs|
  {
    if cs == [] {
      assert cs + ds == ds;
      CreditsFrom(ds, x, hi);
    } else {
      assert (cs + ds)[1..] == cs[1..] + ds;
      CreditAppend(cs[1..], ds, if cs[0].ActivateWrite? then cs[0].msgsRead else x, hi);
    }
  }

  lemma {:induction false} CreditsFrom(ds: seq<Cmd>, x: nat, hi: nat)
    requires x <= hi && CreditsUp(ds, hi, hi) && (forall d <- ds :: d.ActivateWrite? ==> d.msgsRead == hi)
    ensures CreditsUp(ds, x, hi)
    decreases |ds|
  {
    if ds != [] && !ds[0].ActivateWrite? { CreditsFrom(ds[1..], x, hi); }
  }

  lemma {:induction false} CreditsRaise(cs: seq<Cmd>, x: nat, hi: nat, hi': nat)
    requires CreditsUp(cs, x, hi) && hi <= hi'
    ensures CreditsUp(cs, x, hi')
    decreases |cs|
  {
    if cs != [] { CreditsRaise(cs[1..], if cs[0].ActivateWrite? then cs[0].msgsRead else x, hi, hi'); }
  }

  lemma {:induction false} CreditBounds(cs: seq<Cmd>, x: nat, hi: nat)
    requires CreditsUp(cs, x, hi)
    ensures x <= Credit(cs, x) <= hi
    ensures Credit(cs, x) > x ==> ActivateWrite(Credit(cs, x)) in cs
    decreases |cs|
  {
    if cs != [] {
      var y := if cs[0].ActivateWrite? then cs[0].msgsRead else x;
      CreditBounds(cs[1..], y, hi);
      if Credit(cs, x) > x && Credit(cs, x) == y { assert cs[0] == ActivateWrite(y); }
    }
  }

  lemma {:induction false} OtherCmds(cs: seq<Cmd>, hi: nat)
    requires forall c <- cs :: !c.ActivateWrite?
    ensures CreditsUp(cs, hi, hi)
    ensures forall x: nat :: Credit(cs, x) == x
    decreases |cs|
  {
    if cs != [] {
      assert cs[0] in cs;
      OtherCmds(cs[1..], hi);
    }
  }

  /** The reader announced the last multiple of the low watermark it passed. */
  predicate Announced(lwm: int, read: nat, credit: nat) { lwm > 0 ==> credit >= read - read % lwm }

  // ---- the invariant, left end writing ----

  function Tail(s: Sys): seq<Frame> { if s.l.terms == 1 then [Delimiter] else [] }

  predicate DataOk(s: Sys)
    requires |s.lr.qs| == 1
  {
    var q := s.lr.qs[0];
    && EndsWhole(s.l.committed) && Delimiter !in s.l.committed
    && s.r.delivered <= s.l.committed
    && EndsWhole(q.complete)
    && (Reads(s.r) ==>
          && q.flushed + q.complete == s.l.committed[|s.r.delivered|..] + Tail(s)
          && EndsWhole(s.r.delivered + q.flushed)
          && (MidMessage(s.r.delivered) ==> s.r.e.inActive))
  }

  predicate CreditOk(s: Sys)
    requires |s.lr.qs| == 1
  {
    var q, w := s.lr.qs[0], s.l.e;
    && w.msgsWritten == Msgs(s.l.committed)
    && s.r.e.msgsRead == Msgs(s.r.delivered)
    && s.r.e.lwm == ComputeLwm(w.hwm)
    && (s.l.alive ==>
          && CreditsUp(s.toL, w.peersMsgsRead, s.r.e.msgsRead)
          && Announced(s.r.e.lwm, s.r.e.msgsRead, Credit(s.toL, w.peersMsgsRead))
          && (w.hwm > 0 ==> w.msgsWritten - w.peersMsgsRead <= w.hwm)
          && (w.phase == Active && !w.outActive ==> Full(w))
          && (w.phase == Active && s.l.outIx.Some? && q.partial != [] ==> w.outActive && !Full(w)))
  }

  predicate OneEach(s: Sys) {
    && |s.lr.qs| == 1 && |s.rl.qs| == 1
    && s.l.inIx == 0 && s.r.inIx == 0
  }

  predicate FlowHalf(s: Sys) {
    |s.lr.qs| == 1 && DataOk(s) && CreditOk(s)
  }

  ghost predicate FlowInv(s: Sys) {
    CloseInv(s) && OneEach(s) && FlowHalf(s) && FlowHalf(Flip(s))
  }

  lemma InitFlows(hwmLR: int, hwmRL: int)
    ensures FlowInv(Init(hwmLR, hwmRL))
  {
    InitCloses(hwmLR, hwmRL);
  }

  /** What the flow argument uses of the other invariants. */
  predicate FlowReady(s: Sys) {
    && Ready(s) && OneEach(s) && FlowHalf(s) && FlowHalf(Flip(s))
    && (s.l.outIx.Some? ==> s.l.outIx.value == 0)
    && (Reads(s.l) ==> s.r.alive)
    && (s.lr.qs[0].asleep ==> s.lr.qs[0].flushed == [])
    && (s.rl.qs[0].asleep ==> s.rl.qs[0].flushed == [])
  }

  lemma InvFlowReady(s: Sys)
    requires FlowInv(s) && s.l.alive
    ensures FlowReady(s)
  {
    InvReady(s);
    assert Half(s) && Half(Flip(s));
    assert CloseHalf(s) && CloseHalf(Flip(s));
    assert s.lr.qs[0] in s.lr.qs && s.rl.qs[0] in s.rl.qs;
  }

  // ---- operations that leave one of the two sides alone ----

  predicate SameCredit(a: End, b: End) {
    && b.msgsWritten == a.msgsWritten && b.peersMsgsRead == a.peersMsgsRead && b.hwm == a.hwm
    && (b.phase == Active ==> a.phase == Active && b.outActive == a.outActive)
  }

  /** The left end's writing side is not involved. */
  lemma WriterAside(s: Sys, v: View, sent: seq<Cmd>)
    requires FlowReady(s) && SameCredit(s.l.e, v.e) && CountCmd(sent, PipeTerm) == 0
    requires v.outq == ViewL(s).outq || (v.outq.None? && !Reads(s.r))
    ensures FlowHalf(Put(s, v, sent))
  {
  }

  predicate SameRead(a: View, b: View) {
    && b.inq.flushed == a.inq.flushed && b.inq.complete == a.inq.complete && b.inq.partial == a.inq.partial
    && b.e.msgsRead == a.e.msgsRead && b.e.lwm == a.e.lwm
    && (Readable(b.e.phase) ==> Readable(a.e.phase))
  }

  /** The left end's reading side is not involved, except for being polled or woken. */
  lemma ReaderAside(s: Sys, v: View, sent: seq<Cmd>)
    requires FlowReady(s) && SameRead(ViewL(s), v)
    requires v.outq.Some? ==> s.l.outIx.Some?
    requires s.l.e.inActive ==> v.e.inActive || v.inq.flushed == []
    requires forall c <- sent :: !c.ActivateWrite?
    ensures FlowHalf(Flip(Put(s, v, sent)))
  {
    OtherCmds(sent, s.l.e.msgsRead);
    if s.r.alive { CreditAppend(s.toR, sent, s.r.e.peersMsgsRead, s.l.e.msgsRead); }
    assert s.l.delivered + [] == s.l.delivered;
  }

  // ---- reading ----

  lemma ModStep(m: nat, l: int)
    requires l > 0 && (m + 1) % l != 0
    ensures (m + 1) - (m + 1) % l == m - m % l
  {
    var k, r := m / l, m % l;
    assert m == k * l + r;
    if r + 1 < l {
      assert (m + 1) / l == k && (m + 1) % l == r + 1 by { DivModUnique(m + 1, l, k, r + 1); }
    } else {
      assert m + 1 == (k + 1) * l + 0;
      DivModUnique(m + 1, l, k + 1, 0);
    }
  }

  lemma DivModUnique(n: int, l: int, k: int, r: int)
    requires l > 0 && 0 <= r < l && n == k * l + r
    ensures n / l == k && n % l == r
  {
    var k', r' := n / l, n % l;
    assert n == k' * l + r';
    assert (k' - k) * l == r - r';
    if k' > k { MulAtLeast(k' - k, l); }
    if k' < k { MulAtLeast(k - k', l); }
  }

  lemma MulAtLeast(a: int, l: int)
    requires a >= 1 && l > 0
    ensures a * l >= l
  {
    assert a * l == (a - 1) * l + l;
  }

  /** The credit side of reading one part. */
  lemma PartCredits(cs: seq<Cmd>, x: nat, m: nat, n: nat, lwm: int, sent: seq<Cmd>)
    requires CreditsUp(cs, x, m) && Announced(lwm, m, Credit(cs, x)) && (n == m || n == m + 1)
    requires sent == if lwm > 0 && n % lwm == 0 then [ActivateWrite(n)] else []
    ensures CreditsUp(cs + sent, x, n) && Announced(lwm, n, Credit(cs + sent, x))
  {
    CreditsRaise(cs, x, m, n);
    CreditAppend(cs, sent, x, n);
    if lwm > 0 && n == m + 1 && n % lwm != 0 { ModStep(m, lwm); }
  }

  /** One part moves from the queue to what was read. */
  lemma PartAhead(q: Queue, d: seq<Frame>, c: seq<Frame>, tail: seq<Frame>)
    requires q.flushed != [] && q.flushed[0].Part? && d <= c && (tail == [] || tail == [Delimiter])
    requires q.flushed + q.complete == c[|d|..] + tail
    ensures |d| < |c| && q.flushed[0] == c[|d|]
    ensures q.flushed[1..] + q.complete == c[|d| + 1..] + tail && d + [q.flushed[0]] <= c
    ensures d + [q.flushed[0]] + q.flushed[1..] == d + q.flushed
  {
    var all := q.flushed + q.complete;
    assert all[0] == q.flushed[0];
    assert all[1..] == q.flushed[1..] + q.complete;
    assert c[|d|..][1..] == c[|d| + 1..];
  }

  /** The system after reading one part. */
  function AfterPart(s: Sys): Sys
    requires |s.rl.qs| == 1 && s.rl.qs[0].flushed != []
  {
    var f := s.rl.qs[0].flushed[0];
    var n := s.l.e.msgsRead + if Counted(f) then 1 else 0;
    var sent := if s.l.e.lwm > 0 && n % s.l.e.lwm == 0 then [ActivateWrite(n)] else [];
    s.(l := s.l.(e := s.l.e.(msgsRead := n), delivered := s.l.delivered + [f]),
       toR := s.toR + sent,
       rl := s.rl.(qs := [QPop(s.rl.qs[0])]))
  }

  lemma ReadsPart(v: View)
    requires Readable(v.e.phase) && v.e.inActive && !v.inq.asleep && v.inq.flushed != [] && v.inq.flushed[0].Part?
    ensures var f, r := v.inq.flushed[0], Read(v);
      var n := v.e.msgsRead + if Counted(f) then 1 else 0;
      && r.got == Some(f) && r.v == v.(e := v.e.(msgsRead := n), inq := QPop(v.inq))
      && r.sent == if v.e.lwm > 0 && n % v.e.lwm == 0 then [ActivateWrite(n)] else []
  {
  }

  lemma PartReadStep(s: Sys)
    requires Ready(s) && OneEach(s) && Reads(s.l) && s.l.e.inActive
    requires !s.rl.qs[0].asleep && s.rl.qs[0].flushed != [] && s.rl.qs[0].flushed[0].Part?
    ensures StepL(s, DoRead) == Go(AfterPart(s))
  {
    ReadsPart(ViewL(s));
    assert s.rl.qs[0 := QPop(s.rl.qs[0])] == [QPop(s.rl.qs[0])];
    if s.l.outIx.Some? { assert s.lr.qs[s.l.outIx.value := s.lr.qs[s.l.outIx.value]] == s.lr.qs; }
  }

  lemma PartReadData(s: Sys)
    requires OneEach(s) && DataOk(Flip(s)) && Reads(s.l) && s.l.e.inActive
    requires s.rl.qs[0].flushed != [] && s.rl.qs[0].flushed[0].Part?
    ensures DataOk(Flip(AfterPart(s)))
  {
    PartAhead(s.rl.qs[0], s.l.delivered, s.r.committed, Tail(Flip(s)));
  }

  lemma PartReadCredit(s: Sys)
    requires OneEach(s) && CreditOk(Flip(s)) && s.rl.qs[0].flushed != []
    ensures CreditOk(Flip(AfterPart(s)))
  {
    var f, t := s.rl.qs[0].flushed[0], AfterPart(s);
    MsgsAppend(s.l.delivered, [f]);
    assert Msgs([f]) == if Counted(f) then 1 else 0 by { assert [f][..0] == []; }
    if s.r.alive {
      PartCredits(s.toR, s.r.e.peersMsgsRead, s.l.e.msgsRead, t.l.e.msgsRead, s.l.e.lwm, t.toR[|s.toR|..]);
    }
  }

  lemma PartReadFlows(s: Sys)
    requires FlowReady(s) && Reads(s.l) && s.l.e.inActive
    requires s.rl.qs[0].flushed != [] && s.rl.qs[0].flushed[0].Part?
    ensures FlowHalf(AfterPart(s)) && FlowHalf(Flip(AfterPart(s)))
  {
    PartReadData(s);
    PartReadCredit(s);
  }

  /** A part is read. */
  predicate GetsPart(s: Sys)
    requires OneEach(s)
  {
    var q := s.rl.qs[0];
    Reads(s.l) && s.l.e.inActive && !q.asleep && q.flushed != [] && q.flushed[0].Part?
  }

  /** Reading or polling that gets no part. */
  lemma QuietReadFlows(s: Sys, r: ReadResult)
    requires FlowReady(s) && (r == CheckRead(ViewL(s)) || (r == Read(ViewL(s)) && r.got.None?))
    ensures r.v.outq.Some? ==> s.l.outIx.Some?
    ensures FlowHalf(Put(s, r.v, r.sent)) && FlowHalf(Flip(Put(s, r.v, r.sent)))
  {
    var v := ViewL(s);
    ReadViewsFlow(v, r);
    WriterAside(s, r.v, r.sent);
    if SameRead(v, r.v) { ReaderAside(s, r.v, r.sent); } else { DelimiterRead(s, r.v, r.sent); }
  }

  lemma CheckReadFlows(s: Sys)
    requires FlowReady(s)
    ensures StepL(s, DoCheckRead).Go? && FlowHalf(StepL(s, DoCheckRead).s) && FlowHalf(Flip(StepL(s, DoCheckRead).s))
  {
    QuietReadFlows(s, CheckRead(ViewL(s)));
  }

  lemma ReadFlows(s: Sys)
    requires FlowReady(s)
    ensures StepL(s, DoRead).Go? && FlowHalf(StepL(s, DoRead).s) && FlowHalf(Flip(StepL(s, DoRead).s))
  {
    if GetsPart(s) {
      PartReadStep(s);
      PartReadFlows(s);
    } else {
      QuietReadFlows(s, Read(ViewL(s)));
    }
  }

  lemma ReadViewsFlow(v: View, r: ReadResult)
    requires r == CheckRead(v) || (r == Read(v) && r.got.None?)
    ensures SameCredit(v.e, r.v.e) && CountCmd(r.sent, PipeTerm) == 0
    ensures r.v.outq == v.outq || (r.v.outq.None? && v.e.phase == WaitingForDelimiter)
    ensures forall c <- r.sent :: !c.ActivateWrite?
    ensures r.v.e.msgsRead == v.e.msgsRead && r.v.e.lwm == v.e.lwm
    ensures SameRead(v, r.v) || (!Readable(r.v.e.phase) && r.v.inq.complete == v.inq.complete && r.v.inq.partial == v.inq.partial)
    ensures v.e.inActive ==> r.v.e.inActive || r.v.inq.flushed == [] || v.inq.asleep
  {
  }

  /** The delimiter was taken from the queue. */
  lemma DelimiterRead(s: Sys, v: View, sent: seq<Cmd>)
    requires FlowReady(s) && !Readable(v.e.phase) && v.e.msgsRead == s.l.e.msgsRead && v.e.lwm == s.l.e.lwm
    requires v.inq.complete == ViewL(s).inq.complete && v.inq.partial == ViewL(s).inq.partial
    requires v.outq.Some? ==> s.l.outIx.Some?
    requires forall c <- sent :: !c.ActivateWrite?
    ensures FlowHalf(Flip(Put(s, v, sent)))
  {
    OtherCmds(sent, s.l.e.msgsRead);
    if s.r.alive { CreditAppend(s.toR, sent, s.r.e.peersMsgsRead, s.l.e.msgsRead); }
  }

  // ---- writing ----

  predicate Accepts(s: Sys) {
    s.l.outIx == Some(0) && s.l.e.phase == Active && s.l.e.outActive && !Full(s.l.e)
  }

  /** The system after accepting one part: the outbound queue, the count and the history. */
  function AfterWrite(s: Sys, f: Frame): Sys
    requires |s.lr.qs| == 1 && f.Part?
  {
    var q := s.lr.qs[0];
    s.(l := s.l.(e := s.l.e.(msgsWritten := s.l.e.msgsWritten + if Counted(f) then 1 else 0),
                 committed := if f.more then s.l.committed else s.l.committed + q.partial + [f]),
       lr := s.lr.(qs := [QWrite(q, f, f.more)]))
  }

  lemma AcceptedStep(s: Sys, f: Frame)
    requires Pointers(s) && OneEach(s) && f.Part? && Accepts(s)
    ensures WriteL(s, f) == Go(AfterWrite(s, f))
  {
    var q' := QWrite(s.lr.qs[0], f, f.more);
    assert s.lr.qs[0 := q'] == [q'];
    assert s.rl.qs[0 := s.rl.qs[0]] == s.rl.qs;
    assert s.toR + [] == s.toR;
    assert CountCmd([], PipeTerm) == 0 && CountCmd([], PipeTermAck) == 0;
  }

  lemma AppendUnread(a: seq<Frame>, b: seq<Frame>, c: seq<Frame>, d: nat, x: seq<Frame>, f: Frame)
    requires d <= |c| && a + b == c[d..]
    ensures a + (b + x + [f]) == (c + x + [f])[d..]
  {
    assert a + (b + x + [f]) == (a + b) + x + [f];
    assert (c + x + [f])[d..] == c[d..] + x + [f];
  }

  lemma AcceptedData(s: Sys, f: Frame)
    requires OneEach(s) && DataOk(s) && DataOk(Flip(s)) && f.Part? && s.l.terms == 0
    requires AllMore(s.lr.qs[0].partial)
    ensures DataOk(AfterWrite(s, f)) && DataOk(Flip(AfterWrite(s, f)))
  {
    var q, t := s.lr.qs[0], AfterWrite(s, f);
    assert DataOk(Flip(t));
    if !f.more {
      assert forall x :: x in t.l.committed <==> x in s.l.committed || x in q.partial || x == f;
      assert t.l.committed[..|s.l.committed|] == s.l.committed;
      if Reads(s.r) {
        assert s.l.committed[|s.r.delivered|..] + Tail(s) == s.l.committed[|s.r.delivered|..];
        AppendUnread(q.flushed, q.complete, s.l.committed, |s.r.delivered|, q.partial, f);
        assert t.l.committed[|s.r.delivered|..] + Tail(t) == t.l.committed[|s.r.delivered|..];
      }
    }
  }

  lemma AcceptedCredit(s: Sys, f: Frame)
    requires FlowReady(s) && f.Part? && Accepts(s)
    ensures CreditOk(AfterWrite(s, f)) && CreditOk(Flip(AfterWrite(s, f)))
  {
    var q := s.lr.qs[0];
    if !f.more {
      var add := q.partial + [f];
      assert s.l.committed + q.partial + [f] == s.l.committed + add;
      MsgsAppend(s.l.committed, add);
      MsgsAppend(q.partial, [f]);
      MsgsOfPartial(q.partial);
      assert Msgs([f]) == if Counted(f) then 1 else 0 by { assert [f][..0] == []; }
    }
  }

  lemma WritePartFlows(s: Sys, f: Frame)
    requires FlowReady(s) && f.Part?
    ensures WriteL(s, f).Go? && FlowHalf(WriteL(s, f).s) && FlowHalf(Flip(WriteL(s, f).s))
  {
    var v := ViewL(s);
    if s.l.e.phase == Active && s.l.e.outActive && !Full(s.l.e) {
      AcceptedStep(s, f);
      AcceptedData(s, f);
      AcceptedCredit(s, f);
    } else {
      CheckWriteFlows(s);
    }
  }

  lemma CheckWriteFlows(s: Sys)
    requires FlowReady(s)
    ensures FlowHalf(Put(s, CheckWrite(ViewL(s)).0, [])) && FlowHalf(Flip(Put(s, CheckWrite(ViewL(s)).0, [])))
  {
    ReaderAside(s, CheckWrite(ViewL(s)).0, []);
    CheckedWriter(s);
  }

  lemma CheckedWriter(s: Sys)
    requires Pointers(s) && OneEach(s) && FlowHalf(s) && (s.l.outIx.Some? ==> s.l.outIx.value == 0)
    ensures FlowHalf(Put(s, CheckWrite(ViewL(s)).0, []))
  {
    assert s.toR + [] == s.toR;
    var e, t := CheckWrite(ViewL(s)).0.e, Put(s, CheckWrite(ViewL(s)).0, []);
    assert s.lr.qs[0 := s.lr.qs[0]] == s.lr.qs && t.lr == s.lr;
    assert e == s.l.e || (e == s.l.e.(outActive := false) && Full(e) && s.l.e.phase == Active);
  }

  /** The outbound queue keeps its readable content; parts only move within it or are dropped from the unfinished message. */
  predicate Moved(q: Queue, q': Queue) {
    && q'.flushed + q'.complete == q.flushed + q.complete
    && (q'.complete == q.complete || q'.complete == [])
    && (q'.partial == q.partial || q'.partial == [])
  }

  lemma MovedFlows(s: Sys, v: View, sent: seq<Cmd>)
    requires FlowReady(s) && v.e == s.l.e && v.inq == ViewL(s).inq
    requires s.l.outIx.Some? && v.outq.Some? && Moved(s.lr.qs[0], v.outq.value)
    requires CountCmd(sent, PipeTerm) == 0 && forall c <- sent :: !c.ActivateWrite?
    ensures FlowHalf(Put(s, v, sent)) && FlowHalf(Flip(Put(s, v, sent)))
  {
    ReaderAside(s, v, sent);
    MovedData(s, v, sent);
  }

  lemma MovedData(s: Sys, v: View, sent: seq<Cmd>)
    requires FlowReady(s) && v.e == s.l.e && v.inq == ViewL(s).inq
    requires s.l.outIx.Some? && v.outq.Some? && Moved(s.lr.qs[0], v.outq.value)
    requires CountCmd(sent, PipeTerm) == 0 && forall c <- sent :: !c.ActivateWrite?
    ensures FlowHalf(Put(s, v, sent))
  {
    var q, q' := s.lr.qs[0], v.outq.value;
    if Reads(s.r) && q'.complete == [] {
      assert q'.flushed == q.flushed + q.complete;
      var all := s.r.delivered + q'.flushed;
      if q.complete != [] {
        assert all[|all| - 1] == q.complete[|q.complete| - 1];
      } else {
        assert q'.flushed == q.flushed;
      }
    } else if Reads(s.r) {
      assert |q'.flushed| == |q.flushed|;
      assert q'.flushed == (q.flushed + q.complete)[..|q.flushed|] == q.flushed;
    }
    var t := Put(s, v, sent);
    assert DataOk(t);
    assert CreditOk(t);
  }

  lemma RollbackFlows(s: Sys)
    requires FlowReady(s)
    ensures var o := Rollback(ViewL(s));
      o.Ok? && (o.v.outq.Some? ==> s.l.outIx.Some?) && FlowHalf(Put(s, o.v, o.sent)) && FlowHalf(Flip(Put(s, o.v, o.sent)))
  {
    var v := ViewL(s);
    if v.outq.Some? { MovedFlows(s, Rollback(v).v, []); } else { PutSame(s); }
  }

  lemma FlushFlows(s: Sys)
    requires FlowReady(s)
    ensures var (w, sent) := Flush(ViewL(s));
      (w.outq.Some? ==> s.l.outIx.Some?) && FlowHalf(Put(s, w, sent)) && FlowHalf(Flip(Put(s, w, sent)))
  {
    var v := ViewL(s);
    if v.outq.Some? { FlushMoves(v); MovedFlows(s, Flush(v).0, Flush(v).1); } else { PutSame(s); }
  }

  lemma SetNoDelayFlows(s: Sys)
    requires FlowReady(s)
    ensures var t := s.(l := s.l.(e := s.l.e.(delay := false))); FlowHalf(t) && FlowHalf(Flip(t))
  {
  }

  lemma WriteFlows(s: Sys, ev: Event)
    requires FlowReady(s)
    requires ev.DoCheckWrite? || ev.DoWrite? || ev.DoRollback? || ev.DoFlush? || ev.DoSetNoDelay?
    ensures StepL(s, ev).Go? && FlowHalf(StepL(s, ev).s) && FlowHalf(Flip(StepL(s, ev).s))
  {
    match ev
    case DoWrite(m, i, b) => WritePartFlows(s, Part(m, i, b));
    case DoCheckWrite => CheckWriteFlows(s);
    case DoSetNoDelay => SetNoDelayFlows(s);
    case DoRollback => RollbackFlows(s);
    case DoFlush => FlushFlows(s);
  }

  lemma FlushMoves(v: View)
    requires v.outq.Some?
    ensures var (w, sent) := Flush(v);
      && w.e == v.e && w.inq == v.inq && w.outq.Some? && Moved(v.outq.value, w.outq.value)
      && CountCmd(sent, PipeTerm) == 0 && (forall c <- sent :: !c.ActivateWrite?)
  {
    var q := v.outq.value;
    assert q.flushed + q.complete + [] == q.flushed + q.complete;
  }

  // ---- terminating ----

  lemma DelimiterFlows(s: Sys, v: View, sent: seq<Cmd>)
    requires FlowReady(s) && s.l.outIx.Some? && v.outq.Some?
    requires v.e == s.l.e.(phase := v.e.phase, outActive := v.e.outActive, delay := v.e.delay) && v.inq == ViewL(s).inq
    requires v.e.phase != Active && (Readable(v.e.phase) ==> Readable(s.l.e.phase))
    requires v.outq.value.flushed == s.lr.qs[0].flushed + s.lr.qs[0].complete + [Delimiter]
    requires v.outq.value.complete == []
    requires Reads(s.r) ==> s.l.terms == 0 && CountCmd(sent, PipeTerm) == 1
    requires forall c <- sent :: !c.ActivateWrite?
    ensures FlowHalf(Put(s, v, sent)) && FlowHalf(Flip(Put(s, v, sent)))
  {
    ReaderAside(s, v, sent);
    var t := Put(s, v, sent);
    if Reads(s.r) {
      assert Tail(s) == [] && Tail(t) == [Delimiter];
      var d := s.r.delivered;
      assert (d + v.outq.value.flushed)[|d + v.outq.value.flushed| - 1] == Delimiter;
      assert v.outq.value.flushed + v.outq.value.complete == s.l.committed[|d|..] + Tail(s) + [Delimiter];
    }
    assert DataOk(t);
    assert CreditOk(t);
  }

  lemma CloseOutboundFlows(v: View, sent: seq<Cmd>)
    requires v.outq.Some? && AllMore(v.outq.value.partial) && v.e.phase != TermAckSent
    requires forall c <- sent :: !c.ActivateWrite?
    ensures var o := CloseOutbound(v, sent);
      && o.Ok? && o.v.e == v.e.(outActive := false) && o.v.inq == v.inq && o.v.outq.Some?
      && o.v.outq.value.flushed == v.outq.value.flushed + v.outq.value.complete + [Delimiter]
      && o.v.outq.value.complete == []
      && (forall c <- o.sent :: !c.ActivateWrite?)
      && CountCmd(o.sent, PipeTerm) == CountCmd(sent, PipeTerm)
  {
    var q := v.outq.value;
    assert q.complete + [] + [Delimiter] == q.complete + [Delimiter];
    assert q.flushed + (q.complete + [Delimiter]) == q.flushed + q.complete + [Delimiter];
  }

  lemma TerminateFlows(s: Sys, delay: bool)
    requires FlowReady(s)
    ensures var o := Terminate(ViewL(s), delay);
      o.Ok? && (o.v.outq.Some? ==> s.l.outIx.Some?) && FlowHalf(Put(s, o.v, o.sent)) && FlowHalf(Flip(Put(s, o.v, o.sent)))
  {
    if s.l.e.phase == Active || s.l.e.phase == DelimiterReceived {
      TerminateAsks(s, delay);
    } else {
      TerminateAgainFlows(s, delay);
    }
  }

  lemma TerminateStepFlows(s: Sys, delay: bool)
    requires FlowReady(s)
    ensures StepL(s, DoTerminate(delay)).Go?
    ensures FlowHalf(StepL(s, DoTerminate(delay)).s) && FlowHalf(Flip(StepL(s, DoTerminate(delay)).s))
  {
    TerminateFlows(s, delay);
  }

  lemma TerminateAsks(s: Sys, delay: bool)
    requires FlowReady(s) && (s.l.e.phase == Active || s.l.e.phase == DelimiterReceived)
    ensures Terminate(ViewL(s), delay).Ok? && s.l.outIx.Some?
    ensures var o := Terminate(ViewL(s), delay); FlowHalf(Put(s, o.v, o.sent)) && FlowHalf(Flip(Put(s, o.v, o.sent)))
  {
    var v := ViewL(s);
    AskFlows(s, v.(e := v.e.(delay := delay)));
  }

  lemma TerminateAgainFlows(s: Sys, delay: bool)
    requires FlowReady(s) && s.l.e.phase != Active && s.l.e.phase != DelimiterReceived
    ensures var o := Terminate(ViewL(s), delay);
      o.Ok? && (o.v.outq.Some? ==> s.l.outIx.Some?) && FlowHalf(Put(s, o.v, o.sent)) && FlowHalf(Flip(Put(s, o.v, o.sent)))
  {
    var v := ViewL(s);
    var o := Terminate(v, delay);
    if s.l.e.phase == WaitingForDelimiter && delay {
      CloseOutboundFlows(v.(e := v.e.(delay := delay)), []);
      DelimiterFlows(s, o.v, o.sent);
    } else {
      WriterAside(s, o.v, o.sent);
      ReaderAside(s, o.v, o.sent);
    }
  }

  lemma AskFlows(s: Sys, u: View)
    requires FlowReady(s) && s.l.outIx.Some? && s.l.terms == 0
    requires u == ViewL(s).(e := s.l.e.(delay := u.e.delay))
    ensures var o := CloseOutbound(u.(e := u.e.(phase := TermReqSent1)), [PipeTerm]);
      o.Ok? && o.v.outq.Some? && FlowHalf(Put(s, o.v, o.sent)) && FlowHalf(Flip(Put(s, o.v, o.sent)))
  {
    var w := u.(e := u.e.(phase := TermReqSent1));
    CloseOutboundFlows(w, [PipeTerm]);
    assert CountCmd([PipeTerm], PipeTerm) == 1;
    var o := CloseOutbound(w, [PipeTerm]);
    DelimiterFlows(s, o.v, o.sent);
  }

  // ---- commands ----

  /** A credit arrives. */
  lemma CreditArrives(s: Sys, n: nat)
    requires Pointers(s) && OneEach(s) && FlowHalf(s) && s.toL != [] && s.toL[0] == ActivateWrite(n)
    requires s.l.alive && (s.l.outIx.Some? ==> s.l.outIx.value == 0)
    ensures var s1 := s.(toL := s.toL[1..]); FlowHalf(Put(s1, ProcessActivateWrite(ViewL(s1), n), []))
  {
    CreditBounds(s.toL[1..], n, s.r.e.msgsRead);
    assert s.toR + [] == s.toR;
  }

  lemma ActivateWriteFlows(s: Sys, n: nat)
    requires FlowReady(s) && s.toL != [] && s.toL[0] == ActivateWrite(n)
    ensures var s1 := s.(toL := s.toL[1..]); var v := ProcessActivateWrite(ViewL(s1), n);
      FlowHalf(Put(s1, v, [])) && FlowHalf(Flip(Put(s1, v, [])))
  {
    CreditArrives(s, n);
    CreditReader(s.(toL := s.toL[1..]), n);
  }

  lemma CreditReader(s: Sys, n: nat)
    requires Pointers(s) && OneEach(s) && FlowHalf(Flip(s))
    ensures FlowHalf(Flip(Put(s, ProcessActivateWrite(ViewL(s), n), [])))
  {
    assert s.toR + [] == s.toR;
  }

  /** Any other command carries no credit. */
  lemma OtherHeadFlows(s: Sys)
    requires FlowReady(s) && s.toL != [] && !s.toL[0].ActivateWrite?
    ensures FlowReady(s.(toL := s.toL[1..]))
  {
  }

  lemma ActivateReadFlows(s: Sys)
    requires FlowReady(s)
    ensures var w := ProcessActivateRead(ViewL(s)); FlowHalf(Put(s, w, [])) && FlowHalf(Flip(Put(s, w, [])))
  {
    WriterAside(s, ProcessActivateRead(ViewL(s)), []);
    ReaderAside(s, ProcessActivateRead(ViewL(s)), []);
  }

  lemma PipeTermFlows(s: Sys)
    requires FlowReady(s) && !Reads(s.r) && ProcessPipeTerm(ViewL(s)).Ok?
    ensures var o := ProcessPipeTerm(ViewL(s)); FlowHalf(Put(s, o.v, o.sent)) && FlowHalf(Flip(Put(s, o.v, o.sent)))
  {
    var o := ProcessPipeTerm(ViewL(s));
    WriterAside(s, o.v, o.sent);
    ReaderAside(s, o.v, o.sent);
  }

  lemma PipeTermAckFlows(s: Sys)
    requires FlowReady(s) && !Reads(s.r) && ProcessPipeTermAck(ViewL(s)).Ok?
    ensures var o := ProcessPipeTermAck(ViewL(s)); FlowHalf(Put(s, o.v, o.sent)) && FlowHalf(Flip(Put(s, o.v, o.sent)))
  {
    var o := ProcessPipeTermAck(ViewL(s));
    WriterAside(s, o.v, o.sent);
    ReaderAside(s, o.v, o.sent);
  }

  /** The end marks that it was asked, or is deallocated. */
  lemma AsideFlows(s: Sys)
    requires FlowHalf(s) && FlowHalf(Flip(s))
    ensures FlowHalf(s.(l := s.l.(gotTerm := true))) && FlowHalf(Flip(s.(l := s.l.(gotTerm := true))))
    ensures FlowHalf(Bury(s)) && FlowHalf(Flip(Bury(s)))
  {
  }

  lemma TerminationFlows(s: Sys, c: Cmd)
    requires FlowReady(s) && (c.PipeTerm? || c.PipeTermAck?) && !Reads(s.r) && HandleL(s, c).Go?
    ensures FlowHalf(HandleL(s, c).s) && FlowHalf(Flip(HandleL(s, c).s))
  {
    var v := ViewL(s);
    if c.PipeTerm? {
      PipeTermFlows(s);
      AsideFlows(Put(s, ProcessPipeTerm(v).v, ProcessPipeTerm(v).sent));
    } else {
      PipeTermAckFlows(s);
      AsideFlows(Put(s, ProcessPipeTermAck(v).v, ProcessPipeTermAck(v).sent));
    }
  }

  lemma DeliverFlows(s: Sys)
    requires FlowReady(s) && s.toL != [] && !s.toL[0].Hiccup?
    requires s.toL[0].PipeTerm? || s.toL[0].PipeTermAck? ==> !Reads(s.r)
    ensures var t := s.(toL := s.toL[1..]);
      HandleL(t, s.toL[0]).Go? ==> FlowHalf(HandleL(t, s.toL[0]).s) && FlowHalf(Flip(HandleL(t, s.toL[0]).s))
  {
    var t := s.(toL := s.toL[1..]);
    if HandleL(t, s.toL[0]).Go? {
      var c := s.toL[0];
      if c.ActivateWrite? {
        ActivateWriteFlows(s, c.msgsRead);
      } else {
        OtherHeadFlows(s);
        if c.ActivateRead? { ActivateReadFlows(t); } else { TerminationFlows(t, c); }
      }
    }
  }

  lemma DeliverStepFlows(s: Sys)
    requires FlowReady(s) && s.toL != [] && StepL(s, Deliver).Go? && !s.toL[0].Hiccup?
    requires s.toL[0].PipeTerm? || s.toL[0].PipeTermAck? ==> !Reads(s.r)
    ensures FlowHalf(StepL(s, Deliver).s) && FlowHalf(Flip(StepL(s, Deliver).s))
  {
    DeliverFlows(s);
  }

  lemma StepLFlows(s: Sys, ev: Event)
    requires FlowInv(s) && ev != DoHiccup
    ensures StepL(s, ev).Go? && FlowInv(StepL(s, ev).s)
  {
    StepLCloses(s, ev);
    StepKeepsOne(s, ev);
    if s.l.alive {
      InvFlowReady(s);
      if ev == Deliver && s.toL != [] { FlowHead(s); }
      StepLHalvesFlow(s, ev);
    }
  }

  lemma StepLHalvesFlow(s: Sys, ev: Event)
    requires FlowReady(s) && StepL(s, ev).Go? && ev != DoHiccup
    requires ev == Deliver && s.toL != [] ==>
      !s.toL[0].Hiccup? && (s.toL[0].PipeTerm? || s.toL[0].PipeTermAck? ==> !Reads(s.r))
    ensures FlowHalf(StepL(s, ev).s) && FlowHalf(Flip(StepL(s, ev).s))
  {
    match ev
    case DoCheckRead => CheckReadFlows(s);
    case DoRead => ReadFlows(s);
    case DoTerminate(d) => TerminateStepFlows(s, d);
    case Deliver => if s.toL != [] { DeliverStepFlows(s); }
    case _ => WriteFlows(s, ev);
  }

  lemma StepKeepsOne(s: Sys, ev: Event)
    requires OneEach(s) && ev != DoHiccup && StepL(s, ev).Go?
    ensures OneEach(StepL(s, ev).s)
  {
    match ev
    case Deliver => DeliverKeepsOne(s);
    case DoTerminate(d) => TerminateKeepsOne(s, d);
    case DoWrite(_, _, _) => WriteKeepsOne(s, ev);
    case _ =>
  }

  lemma TerminateKeepsOne(s: Sys, d: bool)
    requires OneEach(s) && StepL(s, DoTerminate(d)).Go?
    ensures OneEach(StepL(s, DoTerminate(d)).s)
  {
  }

  lemma WriteKeepsOne(s: Sys, ev: Event)
    requires OneEach(s) && ev.DoWrite? && StepL(s, ev).Go?
    ensures OneEach(StepL(s, ev).s)
  {
  }

  lemma DeliverKeepsOne(s: Sys)
    requires OneEach(s) && StepL(s, Deliver).Go?
    ensures OneEach(StepL(s, Deliver).s)
  {
    if s.l.alive && s.toL != [] { HandleKeepsOne(s.(toL := s.toL[1..]), s.toL[0]); }
  }

  lemma HandleKeepsOne(s: Sys, c: Cmd)
    requires OneEach(s) && Pointers(s) && HandleL(s, c).Go?
    ensures OneEach(HandleL(s, c).s)
  {
  }

  lemma FlowHead(s: Sys)
    requires FlowInv(s) && s.l.alive && s.toL != []
    ensures !s.toL[0].Hiccup?
    ensures s.toL[0].PipeTerm? || s.toL[0].PipeTermAck? ==> !Reads(s.r)
  {
    HeadFacts(s);
    assert Half(s) && Half(Flip(s));
    if s.toL[0].Hiccup? {
      ScanBad(s.toL[1..]);
      ScanIx(s.toL[1..], St(false, false, s.toL[0].queue));
    }
  }

  lemma FlipFlows(s: Sys)
    requires FlowInv(s)
    ensures FlowInv(Flip(s))
  {
    assert Flip(Flip(s)) == s;
  }

  lemma StepFlows(s: Sys, m: Move)
    requires FlowInv(s) && m.ev != DoHiccup
    ensures StepS(s, m).Go? && FlowInv(StepS(s, m).s)
  {
    if m.side == L {
      StepLFlows(s, m.ev);
    } else {
      FlipFlows(s);
      StepLFlows(Flip(s), m.ev);
      FlipFlows(StepL(Flip(s), m.ev).s);
    }
  }

  lemma {:induction false} RunFlows(s: Sys, ms: seq<Move>)
    requires FlowInv(s) && NoHiccup(ms)
    ensures Run(s, ms).Go? && FlowInv(Run(s, ms).s)
    decreases |ms|
  {
    if ms != [] {
      StepFlows(s, ms[0]);
      RunFlows(StepS(s, ms[0]).s, ms[1..]);
    }
  }

  // ---- what follows for every run without hiccups ----

  ghost predicate Reachable(hwmLR: int, hwmRL: int, ms: seq<Move>, s: Sys) {
    NoHiccup(ms) && Reached(hwmLR, hwmRL, ms, s)
  }

  lemma ReachableFlows(hwmLR: int, hwmRL: int, ms: seq<Move>, s: Sys)
    requires Reachable(hwmLR, hwmRL, ms, s)
    ensures FlowInv(s)
  {
    InitFlows(hwmLR, hwmRL);
    RunFlows(Init(hwmLR, hwmRL), ms);
  }

  lemma {:induction false} RunKeepsHwm(s: Sys, ms: seq<Move>)
    requires Run(s, ms).Go?
    ensures Run(s, ms).s.l.e.hwm == s.l.e.hwm && Run(s, ms).s.r.e.hwm == s.r.e.hwm
    decreases |ms|
  {
    if ms != [] {
      StepKeepsHwm(s, ms[0]);
      RunKeepsHwm(StepS(s, ms[0]).s, ms[1..]);
    }
  }

  lemma StepKeepsHwm(s: Sys, m: Move)
    requires StepS(s, m).Go?
    ensures StepS(s, m).s.l.e.hwm == s.l.e.hwm && StepS(s, m).s.r.e.hwm == s.r.e.hwm
  {
    var u := if m.side == L then s else Flip(s);
    StepLKeepsHwm(u, m.ev);
    StepLPeer(u, m.ev);
  }

  lemma StepLKeepsHwm(s: Sys, ev: Event)
    requires StepL(s, ev).Go?
    ensures StepL(s, ev).s.l.e.hwm == s.l.e.hwm
  {
    if s.l.alive {
      match ev
      case DoTerminate(d) => TerminateKeepsHwm(ViewL(s), d);
      case Deliver => if s.toL != [] { HandleKeepsHwm(s.(toL := s.toL[1..]), s.toL[0]); }
      case DoWrite(m, i, b) => WriteKeepsHwm(s, Part(m, i, b));
      case DoRead => ReadKeepsHwm(ViewL(s));
      case _ =>
    }
  }

  lemma ReadKeepsHwm(v: View)
    ensures Read(v).v.e.hwm == v.e.hwm
  {
  }

  lemma WriteKeepsHwm(s: Sys, f: Frame)
    requires Pointers(s) && WriteL(s, f).Go?
    ensures WriteL(s, f).s.l.e.hwm == s.l.e.hwm
  {
  }

  lemma HandleKeepsHwm(s: Sys, c: Cmd)
    requires Pointers(s) && HandleL(s, c).Go?
    ensures HandleL(s, c).s.l.e.hwm == s.l.e.hwm
  {
    match c
    case Hiccup(k) => assert ProcessHiccup(ViewL(s), s.lr.qs[k]).v.e.hwm == s.l.e.hwm;
    case _ =>
  }

  lemma TerminateKeepsHwm(v: View, delay: bool)
    ensures Terminate(v, delay).Ok? ==> Terminate(v, delay).v.e.hwm == v.e.hwm
  {
  }

  /** High watermark: neither the writer's own count nor the number of whole messages
      accepted but not yet read ever exceeds it. */
  lemma HighWatermarkHolds(hwmLR: int, hwmRL: int, ms: seq<Move>, s: Sys)
    requires Reachable(hwmLR, hwmRL, ms, s) && hwmLR > 0 && s.l.alive
    ensures s.l.e.msgsWritten - s.l.e.peersMsgsRead <= hwmLR
    ensures Msgs(s.l.committed) - Msgs(s.r.delivered) <= hwmLR
  {
    ReachableFlows(hwmLR, hwmRL, ms, s);
    RunKeepsHwm(Init(hwmLR, hwmRL), ms);
    CreditBounds(s.toL, s.l.e.peersMsgsRead, s.r.e.msgsRead);
  }

  /** No credit deadlock: a blocked writer either has a larger read count on its way, or
      the reader still has more than hwm - lwm messages to read.  In particular, when the
      reader has read everything, the wake-up is in flight. */
  lemma BlockedWriterIsWoken(hwmLR: int, hwmRL: int, ms: seq<Move>, s: Sys)
    requires Reachable(hwmLR, hwmRL, ms, s)
    requires s.l.alive && s.l.e.phase == Active && !s.l.e.outActive
    ensures hwmLR > 0
    ensures (exists n: nat :: n > s.l.e.peersMsgsRead && ActivateWrite(n) in s.toL)
         || Msgs(s.l.committed) - Msgs(s.r.delivered) > hwmLR - ComputeLwm(hwmLR)
    ensures s.r.delivered == s.l.committed ==> exists n: nat :: n > s.l.e.peersMsgsRead && ActivateWrite(n) in s.toL
  {
    ReachableFlows(hwmLR, hwmRL, ms, s);
    RunKeepsHwm(Init(hwmLR, hwmRL), ms);
    assert CreditOk(s);
    var w, p := s.l.e, s.r.e;
    var c := Credit(s.toL, w.peersMsgsRead);
    CreditBounds(s.toL, w.peersMsgsRead, p.msgsRead);
    assert p.lwm >= 1 && p.msgsRead % p.lwm < p.lwm;
    if c > w.peersMsgsRead {
      assert ActivateWrite(c) in s.toL;
    } else {
      assert p.msgsRead - p.lwm < w.peersMsgsRead == w.msgsWritten - w.hwm;
    }
  }

  /** What was read is, in order, a prefix of the whole messages written; whatever is not
      read yet is still in the queue, followed by the delimiter once the writer has terminated. */
  lemma DeliveryInOrder(hwmLR: int, hwmRL: int, ms: seq<Move>, s: Sys)
    requires Reachable(hwmLR, hwmRL, ms, s)
    ensures s.r.delivered <= s.l.committed && EndsWhole(s.l.committed)
    ensures |s.lr.qs| == 1
    ensures Reads(s.r) ==>
      s.r.delivered + s.lr.qs[0].flushed + s.lr.qs[0].complete == s.l.committed + Tail(s)
  {
    ReachableFlows(hwmLR, hwmRL, ms, s);
    AllInOrder(s);
  }

  lemma AllInOrder(s: Sys)
    requires |s.lr.qs| == 1 && DataOk(s)
    ensures Reads(s.r) ==> s.r.delivered + s.lr.qs[0].flushed + s.lr.qs[0].complete == s.l.committed + Tail(s)
  {
    var d, q := s.r.delivered, s.lr.qs[0];
    if Reads(s.r) {
      assert d + s.l.committed[|d|..] == s.l.committed;
      assert d + (q.flushed + q.complete) == d + q.flushed + q.complete;
    }
  }

  lemma AheadIsPart(c: seq<Frame>, d: nat, tail: seq<Frame>)
    requires Delimiter !in c && d <= |c|
    ensures d < |c| ==> (c[d..] + tail)[0] != Delimiter
  {
    if d < |c| { assert c[d] in c; }
  }

  /** A reader leaves its reading phases by reading only at the delimiter, and has by
      then received every whole message of the writer. */
  lemma NothingLostAtDelimiter(hwmLR: int, hwmRL: int, ms: seq<Move>, s: Sys, ev: Event)
    requires Reachable(hwmLR, hwmRL, ms, s) && (ev == DoRead || ev == DoCheckRead) && Reads(s.r)
    ensures StepS(s, Move(R, ev)).Go?
    ensures !Reads(StepS(s, Move(R, ev)).s.r) ==> s.r.delivered == s.l.committed
  {
    ReachableFlows(hwmLR, hwmRL, ms, s);
    ReaderFacts(s);
    ReadsToTheEnd(s, ev);
  }

  lemma ReaderFacts(s: Sys)
    requires FlowInv(s) && s.r.alive
    ensures Ready(Flip(s)) && OneEach(s) && DataOk(s) && (s.lr.qs[0].asleep ==> s.lr.qs[0].flushed == [])
  {
    FlipFlows(s);
    InvFlowReady(Flip(s));
  }

  lemma ReadsToTheEnd(s: Sys, ev: Event)
    requires Ready(Flip(s)) && OneEach(s) && DataOk(s) && Reads(s.r) && (ev == DoRead || ev == DoCheckRead)
    requires s.lr.qs[0].asleep ==> s.lr.qs[0].flushed == []
    ensures StepS(s, Move(R, ev)).Go?
    ensures !Reads(StepS(s, Move(R, ev)).s.r) ==> s.r.delivered == s.l.committed
  {
    LeavesAtDelimiter(Flip(s), ev);
    if s.lr.qs[0].flushed != [] && s.lr.qs[0].flushed[0] == Delimiter { AllReadAtDelimiter(s); }
  }

  /** With the delimiter in front everything was read. */
  lemma AllReadAtDelimiter(s: Sys)
    requires |s.lr.qs| == 1 && DataOk(s) && Reads(s.r)
    requires s.lr.qs[0].flushed != [] && s.lr.qs[0].flushed[0] == Delimiter
    ensures s.r.delivered == s.l.committed
  {
    var q := s.lr.qs[0];
    assert (q.flushed + q.complete)[0] == Delimiter;
    AheadIsPart(s.l.committed, |s.r.delivered|, Tail(s));
  }

  lemma LeavesAtDelimiter(s: Sys, ev: Event)
    requires Ready(s) && OneEach(s) && Reads(s.l) && (ev == DoRead || ev == DoCheckRead)
    requires s.rl.qs[0].asleep ==> s.rl.qs[0].flushed == []
    ensures StepL(s, ev).Go?
    ensures !Reads(StepL(s, ev).s.l) ==> s.rl.qs[0].flushed != [] && s.rl.qs[0].flushed[0] == Delimiter
  {
  }

  /** Once the first part of a message was accepted, an active end accepts every later part. */
  lemma LaterPartsAccepted(hwmLR: int, hwmRL: int, ms: seq<Move>, s: Sys, f: Frame)
    requires Reachable(hwmLR, hwmRL, ms, s) && f.Part?
    requires s.l.alive && s.l.e.phase == Active && |s.lr.qs| == 1 && s.lr.qs[0].partial != []
    ensures Pointers(s) && Write(ViewL(s), f).1
  {
    ReachableFlows(hwmLR, hwmRL, ms, s);
    InvFlowReady(s);
  }

  /** A reader in the middle of a message finds the next part without blocking. */
  lemma LaterPartsReadable(hwmLR: int, hwmRL: int, ms: seq<Move>, s: Sys)
    requires Reachable(hwmLR, hwmRL, ms, s)
    requires Reads(s.l) && MidMessage(s.l.delivered)
    ensures Pointers(s) && Read(ViewL(s)).got.Some?
  {
    ReachableFlows(hwmLR, hwmRL, ms, s);
    InvFlowReady(s);
    NextPartVisible(s);
  }

  lemma NextPartVisible(s: Sys)
    requires OneEach(s) && DataOk(Flip(s)) && Reads(s.l) && MidMessage(s.l.delivered)
    ensures s.l.e.inActive && s.rl.qs[0].flushed != [] && s.rl.qs[0].flushed[0].Part?
  {
    var q, d := s.rl.qs[0], s.l.delivered;
    assert q.flushed == [] ==> d + q.flushed == d;
    var rest := s.r.committed[|d|..];
    assert rest == [] ==> s.r.committed == d;
    assert (q.flushed + q.complete)[0] == q.flushed[0] && (rest + Tail(Flip(s)))[0] == rest[0] && rest[0] in s.r.committed;
  }
}
