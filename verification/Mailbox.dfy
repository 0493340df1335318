/** mailbox_t over the lock-free ypipe_t, at the level of single atomic operations: many senders, one
    receiver, and a signaler that wakes the receiver up. Positions in the queue are numbered from
    the first command ever written. */
module Mailbox {
  import opened Basics

  /** Inside send, under the lock: nothing, a command written but not flushed, or a flush whose
      compare-and-swap found the reader asleep. */
  datatype Sender = Free | Wrote | Asleep

  /** The receiver is active, or found the queue empty and has not taken back its signal yet, or is
      passive, or was woken and has not read yet. */
  datatype Receiver = Active | Emptied | Passive | Woken

  /** `front` is the next position to read; `r`, `w`, `f` and `c` are the pointers of ypipe_t, with
      `c` shared and None when the reader sleeps; `owed` counts senders about to signal and `signals`
      the signals not taken back; `got` is what was received. */
  datatype Box<T> = Box(log: seq<T>, front: nat, r: Option<nat>, w: nat, f: nat, c: Option<nat>,
                        sender: Sender, receiver: Receiver, owed: nat, signals: nat, got: seq<T>)

  datatype Step<T> =
    | Write(cmd: T)   // lock, ypipe write
    | Swap            // the compare-and-swap of flush
    | Settle          // flush after a failed compare-and-swap, unlock
    | Signal          // signaler send
    | Read            // ypipe read, in recv
    | Retract         // signaler recv
    | Wake            // signaler wait succeeds

  /** A new queue, before the constructor of mailbox_t reads it once. */
  function Fresh<T>(): Box<T> { Box([], 0, Some(0), 0, 0, Some(0), Free, Active, 0, 0, []) }

  function Init<T>(): Box<T> { CheckRead(Fresh<T>()).(receiver := Passive) }

  /** check_read: take what was prefetched, else fetch the shared pointer and put the reader to sleep
      if there is nothing. */
  function CheckRead<T>(b: Box<T>): Box<T> {
    if b.r.Some? && b.r.value != b.front then b
    else b.(r := b.c, c := if b.c == Some(b.front) then None else b.c)
  }

  predicate Fetched<T>(b: Box<T>) { b.r.Some? && b.r.value != b.front }

  /** The step may be taken now. */
  predicate Enabled<T>(b: Box<T>, s: Step<T>) {
    match s
    case Write(_) => b.sender.Free?
    case Swap => b.sender.Wrote?
    case Settle => b.sender.Asleep?
    case Signal => b.owed > 0
    case Read => b.receiver.Active? || b.receiver.Woken?
    case Retract => b.receiver.Emptied? && b.signals > 0
    case Wake => b.receiver.Passive? && b.signals > 0
  }

  function Next<T>(b: Box<T>, s: Step<T>): Box<T>
    requires Enabled(b, s)
  {
    match s
    case Write(cmd) => b.(log := b.log + [cmd], f := |b.log| + 1, sender := Wrote)
    case Swap =>
      if b.c == Some(b.w) then b.(c := Some(b.f), w := b.f, sender := Free)
      else b.(sender := Asleep)
    case Settle => b.(c := Some(b.f), w := b.f, sender := Free, owed := b.owed + 1)
    case Signal => b.(owed := b.owed - 1, signals := b.signals + 1)
    case Read =>
      var d := CheckRead(b);
      if Fetched(d) && d.front < |d.log| then
        d.(front := d.front + 1, got := d.got + [d.log[d.front]], receiver := Active)
      else d.(receiver := Emptied)
    case Retract => b.(signals := b.signals - 1, receiver := Passive)
    case Wake => b.(receiver := Woken)
  }

  /** The steps can be taken one after the other. */
  predicate Legal<T>(b: Box<T>, ss: seq<Step<T>>)
    decreases |ss|
  {
    ss == [] || (Enabled(b, ss[0]) && Legal(Next(b, ss[0]), ss[1..]))
  }

  function Run<T>(b: Box<T>, ss: seq<Step<T>>): Box<T>
    requires Legal(b, ss)
    decreases |ss|
  {
    if ss == [] then b else Run(Next(b, ss[0]), ss[1..])
  }

  /** The pointers are in order, and the shared one is either that of the writer or None. */
  predicate Pointers<T>(b: Box<T>) {
    && b.f == |b.log| && b.w == (if b.sender.Free? then b.f else b.f - 1)
    && b.r.Some? && b.front <= b.r.value <= b.w
    && (b.c.Some? ==> b.c.value == b.w)
    && (b.c.None? ==> b.front == b.r.value == b.w)
    && (b.sender.Asleep? ==> b.c.None?)
  }

  /** One signal is out for every time the reader was found asleep, counting from when it last took
      one back. */
  predicate Signals<T>(b: Box<T>) {
    match b.receiver
    case Active => b.signals == 1 && b.owed == 0 && b.c.Some?
    case Emptied => b.signals >= 1 && b.signals + b.owed == 1 + (if b.c.Some? then 1 else 0) && (b.c.Some? ==> b.front < b.w)
    case Passive => b.signals + b.owed == (if b.c.Some? then 1 else 0) && (b.c.Some? ==> b.front < b.w)
    case Woken => b.signals == 1 && b.owed == 0 && b.c.Some? && b.front < b.w
  }

  predicate Inv<T(==)>(b: Box<T>) { Pointers(b) && Signals(b) && b.got == b.log[..b.front] }

  lemma StepInv<T>(b: Box<T>, s: Step<T>)
    requires Inv(b) && Enabled(b, s)
    ensures Inv(Next(b, s))
  {
    var n := Next(b, s);
    match s
    case Write(cmd) => assert n.log[..n.front] == b.log[..b.front];
    case Read =>
      var d := CheckRead(b);
      if Fetched(d) && d.front < |d.log| { assert b.log[..b.front + 1] == b.log[..b.front] + [b.log[b.front]]; }
    case _ =>
  }

  lemma {:induction false} RunInv<T>(b: Box<T>, ss: seq<Step<T>>)
    requires Inv(b) && Legal(b, ss)
    ensures Inv(Run(b, ss))
    decreases |ss|
  {
    if ss != [] {
      StepInv(b, ss[0]);
      RunInv(Next(b, ss[0]), ss[1..]);
    }
  }

  lemma InitInv<T>()
    ensures Inv(Init<T>())
  {}

  /** `b` is what some interleaving of the senders' and the receiver's steps leads to. */
  ghost predicate Reached<T>(ss: seq<Step<T>>, b: Box<T>) { Legal(Init(), ss) && Run(Init(), ss) == b }

  lemma ReachedInv<T>(ss: seq<Step<T>>, b: Box<T>)
    requires Reached(ss, b)
    ensures Inv(b)
  {
    InitInv<T>();
    RunInv(Init(), ss);
  }

  /** The read after a wake-up finds a command, and taking back a signal finds one. */
  lemma WokenReads<T>(ss: seq<Step<T>>, b: Box<T>)
    requires Reached(ss, b)
    ensures b.receiver.Woken? ==> Next(b, Read).receiver.Active? && Next(b, Read).front == b.front + 1
    ensures b.receiver.Emptied? ==> b.signals > 0
  {
    ReachedInv(ss, b);
  }

  /** No wake-up is lost: when the receiver sleeps while a command waits, a signal is out, or a sender
      is about to send one. */
  lemma NoLostWakeUp<T>(ss: seq<Step<T>>, b: Box<T>)
    requires Reached(ss, b) && b.receiver.Passive? && b.front < |b.log|
    ensures || b.signals > 0 || b.owed > 0
            || (b.sender.Wrote? && Next(b, Swap).sender.Asleep?)
            || (b.sender.Asleep? && Next(b, Settle).owed > 0)
  {
    ReachedInv(ss, b);
  }

  /** Signals pile up only between a failed read and taking back the signal of the last wake-up, and
      then there are at most two. */
  lemma SignalsBounded<T>(ss: seq<Step<T>>, b: Box<T>)
    requires Reached(ss, b)
    ensures b.signals + b.owed <= 2 && (b.signals + b.owed == 2 ==> b.receiver.Emptied?)
  {
    ReachedInv(ss, b);
  }

  /** Commands are received in the order in which they were written, and only when flushed. */
  lemma ReceivedInOrder<T>(ss: seq<Step<T>>, b: Box<T>)
    requires Reached(ss, b)
    ensures b.front <= b.w <= |b.log| && b.got == b.log[..b.front]
  {
    ReachedInv(ss, b);
  }

  /** Between two sends, a receiver that is not asleep gets the next command written, if there is one. */
  lemma WrittenIsReceived<T>(ss: seq<Step<T>>, b: Box<T>)
    requires Reached(ss, b) && b.sender.Free? && (b.receiver.Active? || b.receiver.Woken?) && b.front < |b.log|
    ensures Next(b, Read).got == b.got + [b.log[b.front]] && Next(b, Read).front == b.front + 1
  {
    ReachedInv(ss, b);
  }

  /** The compare-and-swap of flush fails only because the reader sleeps, and never while it is
      active. */
  lemma SwapFailsOnlyAsleep<T>(ss: seq<Step<T>>, b: Box<T>)
    requires Reached(ss, b) && b.sender.Wrote?
    ensures Next(b, Swap).sender.Asleep? <==> b.c.None?
    ensures b.c.None? ==> !b.receiver.Active? && !b.receiver.Woken?
  {
    ReachedInv(ss, b);
  }
}
