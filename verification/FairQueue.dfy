/** fq_t: reads messages from its pipes in turn. */
module FairQueue {
  import opened Basics
  import opened PipeArray
  import opened RoundRobin

  class Fq {
    const pipes: Array
    var active: nat
    var current: nat
    var more: bool

    ghost predicate Valid()
      reads this, pipes
    {
      pipes.Valid() && RingOk(View())
    }

    ghost function View(): Ring
      reads this, pipes
    {
      Ring(pipes.items, active, current)
    }

    constructor ()
      ensures Valid() && fresh(pipes) && View() == Ring([], 0, 0) && !more
    {
      pipes := new Array();
      active, current, more := 0, 0, false;
    }

    method Attach(p: Pipe)
      requires Valid() && p !in pipes.items
      modifies this`active, pipes
      ensures Valid() && View() == Joined(old(View()).(items := old(pipes.items) + [p]), |old(pipes.items)|)
    {
      ghost var r := View().(items := pipes.items + [p]);
      JoinedOk(r, |pipes.items|);
      pipes.PushBack(p);
      pipes.Swap(active, |pipes.items| - 1);
      active := active + 1;
      assert pipes.items == Swapped(r.items, |r.items| - 1, r.active);
    }

    method Activated(p: Pipe)
      requires Valid() && p in pipes.items && pipes.Index(p) >= active
      modifies this`active, pipes
      ensures Valid() && View() == Joined(old(View()), old(pipes.Index(p)))
    {
      JoinedOk(View(), pipes.Index(p));
      pipes.Swap(pipes.Index(p), active);
      active := active + 1;
    }

    /** The pipe is gone: the other active pipes stay, and the array keeps its other pipes. */
    method PipeTerminated(p: Pipe)
      requires Valid() && p in pipes.items
      modifies this`active, this`current, pipes
      ensures Valid()
      ensures View() == Gone(old(View()), old(pipes.Index(p)))
    {
      var index := pipes.Index(p);
      GoneOk(View(), index);
      Withdraw(p);
      pipes.Erase(p);
    }

    /** Takes the pipe out of the active ones. */
    method Withdraw(p: Pipe)
      requires Valid() && p in pipes.items
      modifies this`active, this`current, pipes
      ensures Valid() && View() == Left(old(View()), old(pipes.Index(p)))
      ensures p in pipes.items && pipes.Index(p) == if old(pipes.Index(p)) < old(active) then active else old(pipes.Index(p))
    {
      var index := pipes.Index(p);
      LeftOk(View(), index);
      if index < active {
        active := active - 1;
        pipes.Swap(index, active);
        if current == active { current := 0; }
        assert pipes.items[active] == p;
      }
    }

    /** The current pipe has nothing to read. */
    method Skip()
      requires Valid() && active > 0
      modifies this`active, this`current, pipes
      ensures Valid() && View() == Deactivate(old(View()))
    {
      DeactivateOk(View());
      active := active - 1;
      pipes.Swap(current, active);
      if current == active { current := 0; }
    }

    /** Reads the next part. `heads` tells, for each pipe that has something to read, whether it is
        followed by another part of the same message; a part that was announced is there. */
    method RecvPipe(heads: map<Pipe, bool>) returns (served: Option<Pipe>)
      requires Valid() && (more && active > 0 ==> Head(View()) in heads)
      modifies this, pipes
      ensures Valid()
      ensures var s := Settle(old(View()), heads.Keys);
        if s.active == 0 then served == None && View() == s && more == old(more)
        else served == Some(Head(s)) && more == heads[Head(s)] && View() == if more then s else Next(s)
    {
      while active > 0
        invariant Valid() && more == old(more)
        invariant more && active > 0 ==> Head(View()) in heads
        invariant Settle(View(), heads.Keys) == Settle(old(View()), heads.Keys)
        decreases active
      {
        var p := pipes.items[current];
        if p in heads {
          more := heads[p];
          if !more {
            WrapAround(current, active);
            current := (current + 1) % active;
          }
          return Some(p);
        }
        assert !more;
        Skip();
      }
      return None;
    }

    /** Something can be read: the rest of a message, or a message of an active pipe. */
    method HasIn(ready: set<Pipe>) returns (r: bool)
      requires Valid()
      modifies this`active, this`current, pipes
      ensures Valid() && View() == if more then old(View()) else Settle(old(View()), ready)
      ensures r <==> more || exists q :: IsActive(old(View()), q) && q in ready
    {
      if more { return true; }
      SettleFinds(View(), ready);
      while active > 0
        invariant Valid() && Settle(View(), ready) == Settle(old(View()), ready)
        decreases active
      {
        if pipes.items[current] in ready { return true; }
        Skip();
      }
      return false;
    }
  }
}
