/** The shutdown of a context: ctx_t, the sockets of the application and the reaper thread that
    closes them, interleaved at every point where one of them lets go of a lock or of the reaper's
    mailbox. */
module Reaper {

  type Sock = nat
  type Slot = nat

  /** Commands to the reaper. */
  datatype Cmd = Reap(socket: Sock) | Reaped | Stop

  /** The reaper waits for a command, or has just taken socket `socket` out of the context and not
      announced it; it was on the way into the count of sockets if `entering`. */
  datatype Work = Idle | Destroyed(socket: Sock, entering: bool)

  /** `slots` maps every socket of the context to its slot. A socket is open, or closed by the user with
      its reap command on the way, or being reaped. `told` are the sockets told that the context ends;
      `stops` and `dones` count the commands sent to and by the reaper. */
  datatype Sys = Sys(
    starting: bool, terminating: bool, deleted: bool,
    free: seq<Slot>, slots: map<Sock, Slot>, next: Sock, told: set<Sock>,
    open: set<Sock>, closing: set<Sock>, reaping: set<Sock>,
    inbox: seq<Cmd>, work: Work, count: int, stopping: bool, stopped: bool,
    stops: nat, dones: nat, waiting: nat)

  datatype Event =
    | Create(made: bool)        // create_socket, with a type that is known or not
    | Close(socket: Sock)       // socket_base_t::close
    | Terminate                 // ctx_t::terminate, up to waiting for done
    | Shutdown                  // ctx_t::shutdown
    | TakeDone                  // ctx_t::terminate receives done
    | Process(atOnce: bool)     // the reaper takes a command; a socket to reap may be finished at once
    | Finish(socket: Sock)      // a socket being reaped is finished
    | Announce                  // the reaper sends reaped

  function Init(): Sys {
    Sys(true, false, false, [], map[], 0, {}, {}, {}, {}, [], Idle, 0, false, false, 0, 0, 0)
  }

  /** The list of empty slots: the lowest is used first. */
  function EmptySlots(low: Slot, max: nat): (s: seq<Slot>)
    ensures |s| == max && forall i :: 0 <= i < max ==> s[i] == low + max - 1 - i
  {
    seq(max, i requires 0 <= i < max => low + max - 1 - i)
  }

  /** The context starts its threads with the first socket; slots from `low` are for sockets. */
  function Started(s: Sys, low: Slot, max: nat): Sys {
    if s.starting then s.(starting := false, free := EmptySlots(low, max)) else s
  }

  function CreateSocket(s: Sys, low: Slot, max: nat, made: bool): Sys {
    var t := Started(s, low, max);
    if t.terminating || t.free == [] then t
    else if !made then t.(next := t.next + 1)
    else Opening(t, t.free[..|t.free| - 1], t.slots[t.next := t.free[|t.free| - 1]])
  }

  /** One more socket. */
  function Opening(s: Sys, free: seq<Slot>, slots: map<Sock, Slot>): Sys {
    s.(free := free, slots := slots, open := s.open + {s.next}, next := s.next + 1)
  }

  function SendStop(s: Sys): Sys { s.(inbox := s.inbox + [Stop], stops := s.stops + 1) }

  /** The first call to end the context tells its sockets, and stops the reaper if there are none to
      wait for. */
  function BeginTerminating(s: Sys): Sys {
    if s.terminating then s
    else
      var t := s.(terminating := true, told := s.slots.Keys);
      if s.slots == map[] then SendStop(t) else t
  }

  function CloseSocket(s: Sys, k: Sock): Sys {
    s.(open := s.open - {k}, closing := s.closing + {k}, inbox := s.inbox + [Reap(k)])
  }

  /** destroy_socket: the last socket of a terminating context stops the reaper. */
  function DestroySocket(s: Sys, k: Sock): Sys
    requires k in s.slots
  {
    var t := s.(free := s.free + [s.slots[k]], slots := s.slots - {k}, reaping := s.reaping - {k});
    if t.terminating && t.slots == map[] then SendStop(t) else t
  }

  /** check_destroy, up to the announcement. */
  function TakeOut(s: Sys, k: Sock, entering: bool): Sys
    requires k in s.slots
  {
    DestroySocket(s, k).(work := Destroyed(k, entering))
  }

  function SendDone(s: Sys): Sys { s.(dones := s.dones + 1, waiting := s.waiting + 1, stopped := true) }

  function ProcessStop(s: Sys): Sys {
    var t := s.(stopping := true);
    if t.count == 0 then SendDone(t) else t
  }

  function ProcessReaped(s: Sys): Sys {
    var t := s.(count := s.count - 1);
    if t.count == 0 && t.stopping then SendDone(t) else t
  }

  function Received(s: Sys, k: Sock): Sys { s.(closing := s.closing - {k}, reaping := s.reaping + {k}) }

  /** process_reap: the socket may turn out to have nothing to wait for. */
  function ProcessReap(s: Sys, k: Sock, atOnce: bool): Sys {
    var t := Received(s, k);
    if atOnce && k in t.slots then TakeOut(t, k, true) else t.(count := t.count + 1)
  }

  /** send_reaped, and the rest of process_reap if that is where the socket was destroyed. */
  function AnnounceReaped(s: Sys, entering: bool): Sys {
    s.(inbox := s.inbox + [Reaped], work := Idle, count := s.count + if entering then 1 else 0)
  }

  predicate Enabled(s: Sys, e: Event) {
    && !s.deleted
    && match e
      case Create(_) => true
      case Close(k) => k in s.open
      case Terminate => true
      case Shutdown => true
      case TakeDone => s.waiting > 0 && s.terminating
      case Process(_) => s.work.Idle? && !s.stopped && s.inbox != []
      case Finish(k) => s.work.Idle? && !s.stopped && k in s.reaping
      case Announce => s.work.Destroyed?
  }

  function Next(s: Sys, e: Event, low: Slot, max: nat): Sys {
    match e
    case Create(made) => CreateSocket(s, low, max, made)
    case Close(k) => CloseSocket(s, k)
    case Terminate => if s.starting then s.(deleted := true) else BeginTerminating(s)
    case Shutdown => if s.starting then s else BeginTerminating(s)
    case TakeDone => if s.waiting > 0 then s.(waiting := s.waiting - 1, deleted := true) else s
    case Process(atOnce) =>
      if s.inbox == [] then s
      else
        var t := s.(inbox := s.inbox[1..]);
        (match s.inbox[0]
         case Stop => ProcessStop(t)
         case Reaped => ProcessReaped(t)
         case Reap(k) => ProcessReap(t, k, atOnce))
    case Finish(k) => if k in s.slots then TakeOut(s, k, false) else s
    case Announce => if s.work.Destroyed? then AnnounceReaped(s, s.work.entering) else s
  }

  // ----- Invariants ------------------------------------------------------------------------------

  /** Every slot is free once, or used by one socket. */
  ghost predicate SlotsOk(free: seq<Slot>, slots: map<Sock, Slot>, low: Slot, max: nat) {
    && (forall i, j :: 0 <= i < j < |free| ==> free[i] != free[j])
    && (forall k, l :: k in slots && l in slots && k != l ==> slots[k] != slots[l])
    && (forall k :: k in slots ==> slots[k] !in free)
    && (forall x: Slot :: low <= x < low + max ==> x in free || x in slots.Values)
    && |free| + |slots| == max
  }

  /** The sockets of the context are those open, closing or being reaped. */
  predicate SocketsOk(socks: set<Sock>, open: set<Sock>, closing: set<Sock>, reaping: set<Sock>) {
    && socks == open + closing + reaping
    && open !! closing && open !! reaping && closing !! reaping
  }

  /** Sockets have numbers below the next one. */
  ghost predicate Numbered(socks: set<Sock>, next: Sock) { forall k :: k in socks ==> k < next }

  /** The reap commands on the way are those of the closing sockets. */
  ghost predicate ReapsOk(inbox: seq<Cmd>, closing: set<Sock>) {
    forall k: Sock :: multiset(inbox)[Reap(k)] == if k in closing then 1 else 0
  }

  /** The reaper counts the sockets being reaped and those whose end it has not taken note of. */
  predicate CountOk(count: int, work: Work, reaping: nat, reaped: nat) {
    count + (if work.Destroyed? && work.entering then 1 else 0) == reaping + reaped + (if work.Destroyed? then 1 else 0)
  }

  /** The reaper is told to stop once, when the context is terminating and has no sockets ... */
  predicate StopOk(terminating: bool, noSockets: bool, stops: nat, stopping: bool, pending: nat) {
    && stops == (if terminating && noSockets then 1 else 0)
    && pending + (if stopping then 1 else 0) == stops
  }

  /** ... and it is done once, when it was told to stop and counts no sockets. */
  predicate DoneOk(stopping: bool, stopped: bool, count: int, work: Work, dones: nat, waiting: nat) {
    && (stopping ==> work.Idle?)
    && (stopped <==> stopping && count == 0)
    && dones == (if stopped then 1 else 0)
    && waiting <= dones
  }

  ghost predicate Core(s: Sys) {
    && SocketsOk(s.slots.Keys, s.open, s.closing, s.reaping) && Numbered(s.slots.Keys, s.next)
    && ReapsOk(s.inbox, s.closing)
    && CountOk(s.count, s.work, |s.reaping|, multiset(s.inbox)[Reaped])
    && StopOk(s.terminating, s.slots.Keys == {}, s.stops, s.stopping, multiset(s.inbox)[Stop])
    && DoneOk(s.stopping, s.stopped, s.count, s.work, s.dones, s.waiting)
    && (s.terminating ==> s.slots.Keys <= s.told)
  }

  ghost predicate Inv(s: Sys, low: Slot, max: nat) {
    && Core(s)
    && (if s.starting then s.slots == map[] && s.inbox == [] && s.work.Idle? && !s.terminating
        else SlotsOk(s.free, s.slots, low, max))
  }

  lemma InitInv(low: Slot, max: nat)
    ensures Inv(Init(), low, max)
  {}

  // ----- Every step keeps them ---------------------------------------------------------------------

  lemma Push(inbox: seq<Cmd>, c: Cmd)
    ensures multiset(inbox + [c]) == multiset(inbox) + multiset{c}
  {}

  lemma Pop(inbox: seq<Cmd>)
    requires inbox != []
    ensures multiset(inbox) == multiset(inbox[1..]) + multiset{inbox[0]}
  {
    assert inbox == [inbox[0]] + inbox[1..];
  }

  lemma OneMore(slots: map<Sock, Slot>, k: Sock, x: Slot)
    requires k !in slots
    ensures |slots[k := x]| == |slots| + 1
  {
    assert slots[k := x].Keys == slots.Keys + {k};
    assert |slots[k := x].Keys| == |slots[k := x]|;
  }

  lemma TakeSlot(free: seq<Slot>, slots: map<Sock, Slot>, k: Sock, low: Slot, max: nat)
    requires SlotsOk(free, slots, low, max) && free != [] && k !in slots
    ensures SlotsOk(free[..|free| - 1], slots[k := free[|free| - 1]], low, max)
  {
    var n := |free| - 1;
    var rest, used := free[..n], slots[k := free[n]];
    assert free == rest + [free[n]];
    OneMore(slots, k, free[n]);
    assert free[n] in free && free[n] !in rest;
    assert used[k] == free[n];
    forall x: Slot | low <= x < low + max && x !in rest ensures x in used.Values {
      if x in slots.Values {
        var l :| l in slots && slots[l] == x;
        assert used[l] == x;
      }
    }
  }

  lemma GiveSlot(free: seq<Slot>, slots: map<Sock, Slot>, k: Sock, low: Slot, max: nat)
    requires SlotsOk(free, slots, low, max) && k in slots
    ensures SlotsOk(free + [slots[k]], slots - {k}, low, max)
  {
    var more, rest := free + [slots[k]], slots - {k};
    assert rest.Keys == slots.Keys - {k} && |rest.Keys| == |rest|;
    assert more[|free|] == slots[k];
    forall x: Slot | low <= x < low + max && x !in more ensures x in rest.Values {
      var l :| l in slots && slots[l] == x;
      assert rest[l] == x;
    }
  }

  lemma AllFree(low: Slot, max: nat)
    ensures SlotsOk(EmptySlots(low, max), map[], low, max)
  {
    var e := EmptySlots(low, max);
    forall x: Slot | low <= x < low + max ensures x in e { assert e[low + max - 1 - x] == x; }
  }

  lemma StartedInv(s: Sys, low: Slot, max: nat)
    requires Inv(s, low, max)
    ensures Inv(Started(s, low, max), low, max)
  {
    AllFree(low, max);
  }

  lemma CreateInv(s: Sys, low: Slot, max: nat, made: bool)
    requires Inv(s, low, max)
    ensures Inv(CreateSocket(s, low, max, made), low, max)
  {
    StartedInv(s, low, max);
    var t := Started(s, low, max);
    if !t.terminating && t.free != [] && made { OpeningInv(t, low, max); }
  }

  lemma Opened(socks: set<Sock>, open: set<Sock>, closing: set<Sock>, reaping: set<Sock>, k: Sock)
    requires SocketsOk(socks, open, closing, reaping) && k !in socks
    ensures SocketsOk(socks + {k}, open + {k}, closing, reaping)
  {}

  lemma NumberedNext(socks: set<Sock>, next: Sock)
    requires Numbered(socks, next)
    ensures next !in socks && Numbered(socks + {next}, next + 1)
  {}

  lemma Closed(socks: set<Sock>, open: set<Sock>, closing: set<Sock>, reaping: set<Sock>, k: Sock)
    requires SocketsOk(socks, open, closing, reaping) && k in open
    ensures SocketsOk(socks, open - {k}, closing + {k}, reaping) && k in socks && k !in closing
  {}

  lemma Entered(socks: set<Sock>, open: set<Sock>, closing: set<Sock>, reaping: set<Sock>, k: Sock)
    requires SocketsOk(socks, open, closing, reaping) && k in closing
    ensures SocketsOk(socks, open, closing - {k}, reaping + {k}) && k in socks && |reaping + {k}| == |reaping| + 1
  {}

  lemma TakenOut(socks: set<Sock>, open: set<Sock>, closing: set<Sock>, reaping: set<Sock>, k: Sock)
    requires SocketsOk(socks, open, closing, reaping) && k in reaping
    ensures SocketsOk(socks - {k}, open, closing, reaping - {k}) && k in socks && |reaping - {k}| == |reaping| - 1
  {}

  lemma ReapPushed(inbox: seq<Cmd>, closing: set<Sock>, k: Sock)
    requires ReapsOk(inbox, closing) && k !in closing
    ensures ReapsOk(inbox + [Reap(k)], closing + {k})
  {
    Push(inbox, Reap(k));
  }

  lemma ReapPopped(inbox: seq<Cmd>, closing: set<Sock>, k: Sock)
    requires ReapsOk(inbox, closing) && inbox != [] && inbox[0] == Reap(k)
    ensures k in closing && ReapsOk(inbox[1..], closing - {k})
  {
    Pop(inbox);
    assert multiset(inbox)[Reap(k)] >= 1;
  }

  lemma OpeningCore(s: Sys, free: seq<Slot>, slots: map<Sock, Slot>)
    requires Core(s) && !s.terminating && slots.Keys == s.slots.Keys + {s.next}
    ensures Core(Opening(s, free, slots))
  {
    NumberedNext(s.slots.Keys, s.next);
    Opened(s.slots.Keys, s.open, s.closing, s.reaping, s.next);
  }

  lemma OpeningInv(s: Sys, low: Slot, max: nat)
    requires Inv(s, low, max) && !s.starting && !s.terminating && s.free != []
    ensures Inv(Opening(s, s.free[..|s.free| - 1], s.slots[s.next := s.free[|s.free| - 1]]), low, max)
  {
    var free, slots := s.free[..|s.free| - 1], s.slots[s.next := s.free[|s.free| - 1]];
    assert s.next !in s.slots.Keys;
    assert slots.Keys == s.slots.Keys + {s.next};
    OpeningCore(s, free, slots);
    TakeSlot(s.free, s.slots, s.next, low, max);
  }

  lemma CloseCore(s: Sys, k: Sock)
    requires Core(s) && k in s.open
    ensures Core(CloseSocket(s, k)) && k in s.slots
  {
    Closed(s.slots.Keys, s.open, s.closing, s.reaping, k);
    ReapPushed(s.inbox, s.closing, k);
    Push(s.inbox, Reap(k));
  }

  lemma CloseInv(s: Sys, k: Sock, low: Slot, max: nat)
    requires Inv(s, low, max) && k in s.open
    ensures Inv(CloseSocket(s, k), low, max)
  {
    CloseCore(s, k);
  }

  lemma TerminatingInv(s: Sys, low: Slot, max: nat)
    requires Inv(s, low, max) && !s.starting
    ensures Inv(BeginTerminating(s), low, max)
  {
    Push(s.inbox, Stop);
    assert ReapsOk(s.inbox + [Stop], s.closing);
    assert s.slots == map[] <==> s.slots.Keys == {};
  }

  /** A socket that is taken out of the context waits to be announced; one that was on the way in is
      counted then. */
  lemma TakeOutCore(s: Sys, k: Sock, entering: bool)
    requires Core(s.(count := s.count + if entering then 1 else 0)) && k in s.reaping && s.work.Idle?
    ensures k in s.slots && Core(TakeOut(s, k, entering))
  {
    TakenOut(s.slots.Keys, s.open, s.closing, s.reaping, k);
    Push(s.inbox, Stop);
    assert (s.slots - {k}).Keys == s.slots.Keys - {k};
    assert ReapsOk(s.inbox + [Stop], s.closing);
    assert s.slots - {k} == map[] <==> s.slots.Keys - {k} == {};
  }

  lemma TakeOutInv(s: Sys, k: Sock, entering: bool, low: Slot, max: nat)
    requires Core(s.(count := s.count + if entering then 1 else 0)) && k in s.reaping && s.work.Idle?
    requires !s.starting && SlotsOk(s.free, s.slots, low, max)
    ensures k in s.slots && Inv(TakeOut(s, k, entering), low, max)
  {
    TakeOutCore(s, k, entering);
    GiveSlot(s.free, s.slots, k, low, max);
  }

  lemma AnnounceInv(s: Sys, low: Slot, max: nat)
    requires Inv(s, low, max) && s.work.Destroyed?
    ensures Inv(AnnounceReaped(s, s.work.entering), low, max)
  {
    Push(s.inbox, Reaped);
    assert ReapsOk(s.inbox + [Reaped], s.closing);
  }

  lemma ProcessStopInv(s: Sys, low: Slot, max: nat)
    requires Inv(s, low, max) && s.work.Idle? && s.inbox != [] && s.inbox[0] == Stop
    ensures Inv(ProcessStop(s.(inbox := s.inbox[1..])), low, max)
  {
    Pop(s.inbox);
    assert ReapsOk(s.inbox[1..], s.closing);
  }

  lemma ProcessReapedInv(s: Sys, low: Slot, max: nat)
    requires Inv(s, low, max) && s.work.Idle? && s.inbox != [] && s.inbox[0] == Reaped && !s.stopped
    ensures Inv(ProcessReaped(s.(inbox := s.inbox[1..])), low, max) && s.count > 0
  {
    Pop(s.inbox);
    assert ReapsOk(s.inbox[1..], s.closing);
  }

  /** The socket of a reap command enters the count of the reaper. */
  lemma EnterCore(s: Sys, k: Sock)
    requires Core(s) && s.work.Idle? && s.inbox != [] && s.inbox[0] == Reap(k) && !s.stopped
    ensures k in s.slots
    ensures Core(Received(s.(inbox := s.inbox[1..]), k).(count := s.count + 1))
  {
    Pop(s.inbox);
    ReapPopped(s.inbox, s.closing, k);
    Entered(s.slots.Keys, s.open, s.closing, s.reaping, k);
    assert s.slots.Keys != {};
  }

  lemma ProcessReapInv(s: Sys, k: Sock, atOnce: bool, low: Slot, max: nat)
    requires Core(s) && s.work.Idle? && s.inbox != [] && s.inbox[0] == Reap(k) && !s.stopped
    requires !s.starting && SlotsOk(s.free, s.slots, low, max)
    ensures Inv(ProcessReap(s.(inbox := s.inbox[1..]), k, atOnce), low, max)
  {
    EnterCore(s, k);
    ReapKind(s.(inbox := s.inbox[1..]), k, atOnce, low, max);
  }

  lemma ReapKind(s: Sys, k: Sock, atOnce: bool, low: Slot, max: nat)
    requires Core(Received(s, k).(count := s.count + 1)) && k in s.slots && s.work.Idle?
    requires !s.starting && SlotsOk(s.free, s.slots, low, max)
    ensures Inv(ProcessReap(s, k, atOnce), low, max)
  {
    if atOnce { TakeOutInv(Received(s, k), k, true, low, max); }
  }

  lemma FinishInv(s: Sys, k: Sock, low: Slot, max: nat)
    requires Inv(s, low, max) && s.work.Idle? && k in s.reaping
    ensures k in s.slots && Inv(TakeOut(s, k, false), low, max)
  {
    assert k in s.slots.Keys;
    assert s.(count := s.count + 0) == s;
    TakeOutInv(s, k, false, low, max);
  }

  lemma StepInv(s: Sys, e: Event, low: Slot, max: nat)
    requires Inv(s, low, max) && Enabled(s, e)
    ensures Inv(Next(s, e, low, max), low, max)
  {
    match e
    case Create(made) => CreateInv(s, low, max, made);
    case Close(k) => CloseInv(s, k, low, max);
    case Terminate => if !s.starting { TerminatingInv(s, low, max); }
    case Shutdown => if !s.starting { TerminatingInv(s, low, max); }
    case TakeDone =>
    case Process(atOnce) =>
      match s.inbox[0] {
        case Stop => ProcessStopInv(s, low, max);
        case Reaped => ProcessReapedInv(s, low, max);
        case Reap(k) => ProcessReapInv(s, k, atOnce, low, max);
      }
    case Finish(k) => FinishInv(s, k, low, max);
    case Announce => AnnounceInv(s, low, max);
  }

  // ----- Whole runs --------------------------------------------------------------------------------

  predicate Legal(s: Sys, es: seq<Event>, low: Slot, max: nat)
    decreases |es|
  {
    es == [] || (Enabled(s, es[0]) && Legal(Next(s, es[0], low, max), es[1..], low, max))
  }

  function Run(s: Sys, es: seq<Event>, low: Slot, max: nat): Sys
    decreases |es|
  {
    if es == [] then s else Run(Next(s, es[0], low, max), es[1..], low, max)
  }

  lemma {:induction false} RunInv(s: Sys, es: seq<Event>, low: Slot, max: nat)
    requires Inv(s, low, max) && Legal(s, es, low, max)
    ensures Inv(Run(s, es, low, max), low, max)
    decreases |es|
  {
    if es != [] {
      StepInv(s, es[0], low, max);
      RunInv(Next(s, es[0], low, max), es[1..], low, max);
    }
  }

  /** `t` is what some run of a new context leads to. */
  ghost predicate Reached(es: seq<Event>, low: Slot, max: nat, t: Sys) {
    Legal(Init(), es, low, max) && Run(Init(), es, low, max) == t
  }

  lemma ReachedInv(es: seq<Event>, low: Slot, max: nat, t: Sys)
    requires Reached(es, low, max, t)
    ensures Inv(t, low, max)
  {
    InitInv(low, max);
    RunInv(Init(), es, low, max);
  }

  /** In every run the reaper is stopped at most once and done at most once, and when it is done every
      socket was destroyed and every command to the reaper was processed, so that nothing is left to
      reach it. The count it keeps does not go below zero, and every socket left in a terminating
      context was told. */
  lemma ShutdownIsSafe(es: seq<Event>, low: Slot, max: nat, t: Sys)
    requires Reached(es, low, max, t)
    ensures t.stops <= 1 && t.dones <= 1
    ensures t.dones == 1 ==> t.terminating && t.slots == map[] && t.inbox == [] && t.work.Idle? && t.count == 0
    ensures t.inbox != [] && t.inbox[0] == Reaped && t.work.Idle? ==> t.count > 0
    ensures t.terminating ==> t.slots.Keys <= t.told
  {
    ReachedInv(es, low, max, t);
    if t.dones == 1 { NothingLeft(t, low, max); }
    if t.inbox != [] && t.inbox[0] == Reaped { Pop(t.inbox); }
  }

  lemma NothingLeft(t: Sys, low: Slot, max: nat)
    requires Inv(t, low, max) && t.dones == 1
    ensures t.terminating && t.slots == map[] && t.inbox == [] && t.work.Idle? && t.count == 0
  {
    assert t.slots.Keys == {};
    assert t.reaping == {} && t.closing == {};
    forall c ensures multiset(t.inbox)[c] == 0 {
      match c
      case Reap(k) => assert multiset(t.inbox)[Reap(k)] == 0;
      case Reaped =>
      case Stop =>
    }
    assert multiset(t.inbox) == multiset{};
  }

  /** The list of sockets is empty when the context is deleted after `done`. */
  lemma ContextIsEmpty(es: seq<Event>, low: Slot, max: nat, t: Sys)
    requires Reached(es, low, max, t) && Enabled(t, TakeDone)
    ensures t.slots == map[]
  {
    ReachedInv(es, low, max, t);
    NothingLeft(t, low, max);
  }

  /** Slots are conserved: each is free, and then once, or belongs to a socket of the context, and then
      to one. */
  lemma SlotsConserved(es: seq<Event>, low: Slot, max: nat, t: Sys, x: Slot)
    requires Reached(es, low, max, t) && low <= x < low + max && !t.starting
    ensures x in t.free <==> forall k :: k in t.slots ==> t.slots[k] != x
    ensures multiset(t.free)[x] <= 1
    ensures forall k, l :: k in t.slots && l in t.slots && t.slots[k] == x == t.slots[l] ==> k == l
  {
    ReachedInv(es, low, max, t);
    if forall k :: k in t.slots ==> t.slots[k] != x { assert x !in t.slots.Values; }
    OnceOnly(t.free, x);
  }

  /** A context that is not ending creates a socket exactly while it has fewer than the maximum, if the
      type is known; the socket is new and gets a slot of its own. */
  lemma SocketCreated(es: seq<Event>, low: Slot, max: nat, s: Sys, made: bool)
    requires Reached(es, low, max, s) && !s.terminating
    ensures var t := Next(s, Create(made), low, max);
      && s.next !in s.slots
      && t.slots.Keys == (if made && |s.slots| < max then s.slots.Keys + {s.next} else s.slots.Keys)
      && forall k <- s.slots :: k in t.slots && t.slots[k] == s.slots[k]
  {
    ReachedInv(es, low, max, s);
    StartedInv(s, low, max);
    FreeSlots(Started(s, low, max), low, max);
    CreatesIfFree(s, low, max, made);
  }

  lemma FreeSlots(s: Sys, low: Slot, max: nat)
    requires Inv(s, low, max) && !s.starting
    ensures |s.free| + |s.slots| == max && s.next !in s.slots
  {
    assert s.next !in s.slots.Keys;
  }

  lemma CreatesIfFree(s: Sys, low: Slot, max: nat, made: bool)
    requires !s.terminating && s.next !in s.slots
    requires |Started(s, low, max).free| + |s.slots| == max
    ensures var t := CreateSocket(s, low, max, made);
      && t.slots.Keys == (if made && |s.slots| < max then s.slots.Keys + {s.next} else s.slots.Keys)
      && forall k <- s.slots :: k in t.slots && t.slots[k] == s.slots[k]
  {}

  lemma {:induction false} OnceOnly(free: seq<Slot>, x: Slot)
    requires forall i, j :: 0 <= i < j < |free| ==> free[i] != free[j]
    ensures multiset(free)[x] <= 1
    decreases |free|
  {
    if free != [] {
      OnceOnly(free[1..], x);
      assert free == [free[0]] + free[1..];
      if x == free[0] { assert x !in free[1..]; }
    }
  }
}
