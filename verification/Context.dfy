/** ctx_t and reaper_t as objects, proved to take the steps of Reaper. */
module Context {
  import opened Basics
  import R = Reaper

  class Context {
    const low: R.Slot
    const maxSockets: nat
    var starting: bool
    var terminating: bool
    var emptySlots: seq<R.Slot>
    var slots: map<R.Sock, R.Slot>
    var maxSocketId: R.Sock

    /** The context's part of the system. */
    ghost predicate Is(s: R.Sys)
      reads this
    {
      && starting == s.starting && terminating == s.terminating
      && emptySlots == s.free && slots == s.slots && maxSocketId == s.next
    }

    constructor (ioThreads: nat, maxSockets: nat)
      ensures low == ioThreads + 2 && this.maxSockets == maxSockets && Is(R.Init())
    {
      low, this.maxSockets := ioThreads + 2, maxSockets;
      starting, terminating := true, false;
      emptySlots, slots, maxSocketId := [], map[], 0;
    }

    method Start(ghost s: R.Sys)
      requires Is(s) && (starting ==> emptySlots == [])
      modifies this`starting, this`emptySlots
      ensures Is(R.Started(s, low, maxSockets))
    {
      if starting {
        starting := false;
        var i := low + maxSockets;
        while i > low
          invariant low <= i <= low + maxSockets && !starting
          invariant emptySlots == R.EmptySlots(low, maxSockets)[..low + maxSockets - i]
        {
          i := i - 1;
          emptySlots := emptySlots + [i];
        }
        assert emptySlots == R.EmptySlots(low, maxSockets);
      }
    }

    /** A socket gets the last of the empty slots; none is created once the context terminates, when
        there is no slot left, or for an unknown type, which gives the slot back. */
    method CreateSocket(known: bool, ghost s: R.Sys) returns (socket: Option<R.Sock>)
      requires Is(s) && (starting ==> emptySlots == [])
      modifies this`starting, this`emptySlots, this`slots, this`maxSocketId
      ensures Is(R.CreateSocket(s, low, maxSockets, known))
      ensures socket.None? <==> !known || R.Started(s, low, maxSockets).terminating || R.Started(s, low, maxSockets).free == []
      ensures socket.Some? ==> socket.value == s.next && socket.value in slots
    {
      Start(s);
      ghost var t := R.Started(s, low, maxSockets);
      if terminating { return None; }
      if emptySlots == [] { return None; }
      var slot := emptySlots[|emptySlots| - 1];
      emptySlots := emptySlots[..|emptySlots| - 1];
      var sid := maxSocketId;
      maxSocketId := maxSocketId + 1;
      if !known {
        emptySlots := emptySlots + [slot];
        assert emptySlots == t.free;
        return None;
      }
      slots := slots[sid := slot];
      return Some(sid);
    }

    /** The slot of the socket is free again; `stop` tells that the reaper was told to stop. */
    method DestroySocket(k: R.Sock, ghost s: R.Sys) returns (stop: bool)
      requires Is(s) && k in slots
      modifies this`emptySlots, this`slots
      ensures Is(R.DestroySocket(s, k))
      ensures R.DestroySocket(s, k).inbox == s.inbox + if stop then [R.Stop] else []
    {
      emptySlots := emptySlots + [slots[k]];
      slots := slots - {k};
      stop := terminating && slots == map[];
    }

    /** The common part of terminate and shutdown: the first time, every socket is sent `stop`, once, and
        the reaper is if there is no socket. */
    method BeginTerminating(ghost s: R.Sys) returns (told: seq<R.Sock>, stop: bool)
      requires Is(s) && !starting
      modifies this`terminating
      ensures Is(R.BeginTerminating(s))
      ensures R.BeginTerminating(s).inbox == s.inbox + if stop then [R.Stop] else []
      ensures multiset(told) == if old(terminating) then multiset{} else multiset(slots.Keys)
      ensures !old(terminating) ==> R.BeginTerminating(s).told == slots.Keys
    {
      var restarted := terminating;
      terminating := true;
      told, stop := [], false;
      if !restarted {
        told := Tell(slots.Keys);
        stop := slots == map[];
      }
    }
  }

  /** The loop over the sockets. */
  method Tell(sockets: set<R.Sock>) returns (told: seq<R.Sock>)
    ensures multiset(told) == multiset(sockets)
  {
    var left := sockets;
    told := [];
    while left != {}
      invariant left <= sockets && multiset(told) == multiset(sockets - left)
      decreases |left|
    {
      var k :| k in left;
      told := told + [k];
      left := left - {k};
    }
    assert sockets - left == sockets;
  }

  class ReaperThread {
    var sockets: int
    var terminating: bool
    var finished: bool

    ghost predicate Is(s: R.Sys)
      reads this
    {
      sockets == s.count && terminating == s.stopping && finished == s.stopped
    }

    constructor ()
      ensures Is(R.Init())
    {
      sockets, terminating, finished := 0, false, false;
    }

    /** `done` tells that the command of this name was sent. */
    method ProcessStop(ghost s: R.Sys) returns (done: bool)
      requires Is(s) && !finished
      modifies this
      ensures Is(R.ProcessStop(s)) && R.ProcessStop(s).dones == s.dones + if done then 1 else 0
    {
      terminating := true;
      done := sockets == 0;
      if done { finished := true; }
    }

    method ProcessReaped(ghost s: R.Sys) returns (done: bool)
      requires Is(s) && !finished
      modifies this
      ensures Is(R.ProcessReaped(s)) && R.ProcessReaped(s).dones == s.dones + if done then 1 else 0
    {
      sockets := sockets - 1;
      done := sockets == 0 && terminating;
      if done { finished := true; }
    }

    /** Reaping starts; the socket is counted even if it is gone by the time it is. */
    method ProcessReap(k: R.Sock, atOnce: bool, ghost s: R.Sys)
      requires Is(s) && k in s.slots
      modifies this`sockets
      ensures Is(if atOnce then R.AnnounceReaped(R.ProcessReap(s, k, true), true) else R.ProcessReap(s, k, false))
    {
      sockets := sockets + 1;
    }
  }
}
