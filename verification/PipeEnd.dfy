/** One end of a message pipe (pipe.cpp): the value-level behaviour of every
    operation and command handler.  A View is what one end can touch: its own
    fields, the queue it reads and the queue it writes (absent once the end has
    let go of it). */
module PipeEnd {
  import opened Basics

  /** A message part as the pipe sees it; `body` stands for the payload. */
  datatype Frame = Delimiter | Part(more: bool, identity: bool, body: int)

  /** The commands one end sends to the other. */
  datatype Cmd =
    | ActivateRead
    | ActivateWrite(msgsRead: nat)
    | Hiccup(queue: nat)
    | PipeTerm
    | PipeTermAck

  /** The queue contract: `flushed` is visible to the reader, `complete` holds whole
      messages not flushed yet, `partial` the parts of an unfinished message. */
  datatype Queue = Queue(flushed: seq<Frame>, complete: seq<Frame>, partial: seq<Frame>, asleep: bool)

  const EMPTY_QUEUE := Queue([], [], [], false)

  datatype Phase =
    | Active
    | DelimiterReceived
    | WaitingForDelimiter
    | TermAckSent
    | TermReqSent1
    | TermReqSent2

  datatype End = End(
    phase: Phase, inActive: bool, outActive: bool, hwm: int, lwm: int,
    msgsRead: nat, msgsWritten: int, peersMsgsRead: nat, delay: bool)

  datatype View = View(e: End, inq: Queue, outq: Option<Queue>)

  /** Result of an operation that may hit a failing assertion. */
  datatype Outcome = Ok(v: View, sent: seq<Cmd>) | AssertFailed

  const MAX_WM_DELTA := 1024

  /** Truncating halving of hwm + 1, written out because hwm may be negative. */
  function ComputeLwm(hwm: int): (lwm: int)
    ensures hwm > 0 ==> 1 <= lwm <= hwm
    ensures hwm <= 0 ==> lwm <= 0
  {
    if hwm > MAX_WM_DELTA * 2 then hwm - MAX_WM_DELTA
    else if hwm + 1 >= 0 then (hwm + 1) / 2 else -(-(hwm + 1) / 2)
  }

  function NewEnd(inHwm: int, outHwm: int): End {
    End(Active, true, true, outHwm, ComputeLwm(inHwm), 0, 0, 0, true)
  }

  // ---- the queue ----

  function QWrite(q: Queue, f: Frame, incomplete: bool): Queue {
    if incomplete then q.(partial := q.partial + [f])
    else q.(complete := q.complete + q.partial + [f], partial := [])
  }

  /** The flushed queue, and whether the reader was awake. */
  function QFlush(q: Queue): (Queue, bool) {
    if q.complete == [] then (q, true)
    else (q.(flushed := q.flushed + q.complete, complete := [], asleep := false), !q.asleep)
  }

  /** Polling an empty queue puts the reader to sleep. */
  function QCheckRead(q: Queue): (Queue, bool) {
    if q.asleep then (q, false)
    else if q.flushed == [] then (q.(asleep := true), false)
    else (q, true)
  }

  function QPop(q: Queue): Queue
    requires q.flushed != []
  {
    q.(flushed := q.flushed[1..])
  }

  // ---- reading ----

  predicate Readable(p: Phase) { p == Active || p == WaitingForDelimiter }

  /** A delimiter was read. */
  function ProcessDelimiter(v: View): (View, seq<Cmd>)
    requires Readable(v.e.phase)
  {
    if v.e.phase == Active then (v.(e := v.e.(phase := DelimiterReceived)), [])
    else (v.(e := v.e.(phase := TermAckSent), outq := None), [PipeTermAck])
  }

  datatype ReadResult = ReadResult(v: View, sent: seq<Cmd>, got: Option<Frame>)

  /** check_read: `got` is the frame that a read would return, None for false. */
  function CheckRead(v: View): ReadResult {
    if !v.e.inActive || !Readable(v.e.phase) then ReadResult(v, [], None)
    else
      var (q, ok) := QCheckRead(v.inq);
      if !ok then ReadResult(v.(e := v.e.(inActive := false), inq := q), [], None)
      else if q.flushed[0].Delimiter? then
        var (w, sent) := ProcessDelimiter(v.(inq := QPop(q)));
        ReadResult(w, sent, None)
      else ReadResult(v.(inq := q), [], Some(q.flushed[0]))
  }

  predicate Counted(f: Frame) { f.Part? && !f.more && !f.identity }

  function Read(v: View): ReadResult {
    if !v.e.inActive || !Readable(v.e.phase) then ReadResult(v, [], None)
    else
      var (q, ok) := QCheckRead(v.inq);
      if !ok then ReadResult(v.(e := v.e.(inActive := false), inq := q), [], None)
      else
        var f := q.flushed[0];
        var u := v.(inq := QPop(q));
        if f.Delimiter? then
          var (w, sent) := ProcessDelimiter(u);
          ReadResult(w, sent, None)
        else
          var n := v.e.msgsRead + if Counted(f) then 1 else 0;
          var sent := if v.e.lwm > 0 && n % v.e.lwm == 0 then [ActivateWrite(n)] else [];
          ReadResult(u.(e := u.e.(msgsRead := n)), sent, Some(f))
  }

  // ---- writing ----

  predicate Full(e: End) { e.hwm > 0 && e.msgsWritten - e.peersMsgsRead == e.hwm }

  function CheckWrite(v: View): (View, bool) {
    if !v.e.outActive || v.e.phase != Active then (v, false)
    else if Full(v.e) then (v.(e := v.e.(outActive := false)), false)
    else (v, true)
  }

  /** write: an accepted part goes to the queue; None means the queue pointer was null. */
  function Write(v: View, f: Frame): (Option<View>, bool) {
    var (u, ok) := CheckWrite(v);
    if !ok then (Some(u), false)
    else if u.outq.None? then (None, false)
    else
      var n := u.e.msgsWritten + if Counted(f) then 1 else 0;
      (Some(u.(e := u.e.(msgsWritten := n), outq := Some(QWrite(u.outq.value, f, f.Part? && f.more)))), true)
  }

  predicate AllMore(fs: seq<Frame>) { forall f <- fs :: f.Part? && f.more }

  /** rollback: every part popped is asserted to carry the more flag. */
  function Rollback(v: View): Outcome {
    if v.outq.None? then Ok(v, [])
    else if AllMore(v.outq.value.partial) then Ok(v.(outq := Some(v.outq.value.(partial := []))), [])
    else AssertFailed
  }

  function Flush(v: View): (View, seq<Cmd>) {
    if v.e.phase == TermAckSent || v.outq.None? then (v, [])
    else
      var (q, awake) := QFlush(v.outq.value);
      (v.(outq := Some(q)), if awake then [] else [ActivateRead])
  }

  // ---- command handlers ----

  function ProcessActivateRead(v: View): View {
    if !v.e.inActive && Readable(v.e.phase) then v.(e := v.e.(inActive := true)) else v
  }

  function ProcessActivateWrite(v: View, n: nat): View {
    var e := v.e.(peersMsgsRead := n);
    v.(e := if !e.outActive && e.phase == Active then e.(outActive := true) else e)
  }

  function NotMore(fs: seq<Frame>): nat {
    if fs == [] then 0 else NotMore(fs[1..]) + if fs[0].Part? && fs[0].more then 0 else 1
  }

  /** The parts a drain of `q` after a flush gets to see. */
  function Drainable(q: Queue): seq<Frame> {
    if q.asleep && q.complete == [] then [] else q.flushed + q.complete
  }

  /** The old outbound queue is drained and replaced by `newq`. */
  function ProcessHiccup(v: View, newq: Queue): Outcome {
    if v.outq.None? then AssertFailed
    else
      var n := v.e.msgsWritten - NotMore(Drainable(v.outq.value));
      Ok(v.(e := v.e.(msgsWritten := n, outActive := true), outq := Some(newq)), [])
  }

  function ProcessPipeTerm(v: View): Outcome {
    match v.e.phase
    case Active =>
      if !v.e.delay then Ok(v.(e := v.e.(phase := TermAckSent), outq := None), [PipeTermAck])
      else Ok(v.(e := v.e.(phase := WaitingForDelimiter)), [])
    case DelimiterReceived => Ok(v.(e := v.e.(phase := TermAckSent), outq := None), [PipeTermAck])
    case TermReqSent1 => Ok(v.(e := v.e.(phase := TermReqSent2), outq := None), [PipeTermAck])
    case _ => AssertFailed
  }

  /** The end is deallocated by this handler; the view it returns is its last. */
  function ProcessPipeTermAck(v: View): Outcome {
    match v.e.phase
    case TermReqSent1 => Ok(v.(outq := None), [PipeTermAck])
    case TermAckSent => Ok(v, [])
    case TermReqSent2 => Ok(v, [])
    case _ => AssertFailed
  }

  /** terminate, from the point where the phase has been dealt with: stop writing,
      drop the unfinished message, append the delimiter and flush. */
  function CloseOutbound(v: View, sent: seq<Cmd>): Outcome {
    var u := v.(e := v.e.(outActive := false));
    if u.outq.None? then Ok(u, sent)
    else
      match Rollback(u)
      case AssertFailed => AssertFailed
      case Ok(w, _) =>
        var (x, more) := Flush(w.(outq := Some(QWrite(w.outq.value, Delimiter, false))));
        Ok(x, sent + more)
  }

  /** terminate, up to the phase change: what is sent, and whether the outbound direction is closed next. */
  function BeginTerminate(v: View, delay: bool): (View, seq<Cmd>, bool) {
    var u := v.(e := v.e.(delay := delay));
    match u.e.phase
    case TermReqSent1 => (u, [], false)
    case TermReqSent2 => (u, [], false)
    case TermAckSent => (u, [], false)
    case Active => (u.(e := u.e.(phase := TermReqSent1)), [PipeTerm], true)
    case DelimiterReceived => (u.(e := u.e.(phase := TermReqSent1)), [PipeTerm], true)
    case WaitingForDelimiter =>
      if !delay then (u.(e := u.e.(phase := TermAckSent), outq := None), [PipeTermAck], true)
      else (u, [], true)
  }

  function Terminate(v: View, delay: bool): Outcome {
    var (u, sent, close) := BeginTerminate(v, delay);
    if close then CloseOutbound(u, sent) else Ok(u, sent)
  }
}
