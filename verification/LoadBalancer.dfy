/** lb_t: writes messages to its pipes in turn. */
module LoadBalancer {
  import opened Basics
  import opened PipeArray
  import opened RoundRobin

  class Lb {
    const pipes: Array
    var active: nat
    var current: nat
    var more: bool
    var dropping: bool

    ghost predicate Valid()
      reads this, pipes
    {
      pipes.Valid() && RingOk(View()) && (dropping ==> more)
    }

    ghost function View(): Ring
      reads this, pipes
    {
      Ring(pipes.items, active, current)
    }

    constructor ()
      ensures Valid() && fresh(pipes) && View() == Ring([], 0, 0) && !more
    {
      pipes := new Array();
      active, current, more, dropping := 0, 0, false, false;
    }

    method Attach(p: Pipe)
      requires Valid() && p !in pipes.items
      modifies this`active, pipes
      ensures Valid() && View() == Joined(old(View()).(items := old(pipes.items) + [p]), |old(pipes.items)|)
    {
      pipes.PushBack(p);
      assert pipes.items[|pipes.items| - 1] == p;
      Activated(p);
    }

    method Activated(p: Pipe)
      requires Valid() && p in pipes.items && pipes.Index(p) >= active
      modifies this`active, pipes
      ensures Valid() && View() == Joined(old(View()), old(pipes.Index(p)))
    {
      JoinedOk(View(), pipes.Index(p));
      pipes.Swap(pipes.Index(p), active);
      active := active + 1;
    }

    /** The pipe is gone; the rest of a message begun on it will be dropped. */
    method PipeTerminated(p: Pipe)
      requires Valid() && p in pipes.items
      modifies this`active, this`current, this`dropping, pipes
      ensures Valid()
      ensures View() == Gone(old(View()), old(pipes.Index(p)))
      ensures dropping <==> old(dropping) || (more && old(pipes.Index(p)) == old(current))
    {
      var index := pipes.Index(p);
      if index == current && more { dropping := true; }
      Remove(p);
    }

    method Remove(p: Pipe)
      requires Valid() && p in pipes.items
      modifies this`active, this`current, pipes
      ensures Valid() && View() == Gone(old(View()), old(pipes.Index(p)))
    {
      GoneOk(View(), pipes.Index(p));
      Withdraw(p);
      pipes.Erase(p);
    }

    /** Takes the pipe out of the active ones. */
    method Withdraw(p: Pipe)
      requires Valid() && p in pipes.items
      modifies this`active, this`current, pipes
      ensures Valid() && View() == Left(old(View()), old(pipes.Index(p)))
      ensures p in pipes.items && pipes.Index(p) == if old(pipes.Index(p)) < old(active) then active else old(pipes.Index(p))
    {
      var index := pipes.Index(p);
      LeftOk(View(), index);
      if index < active {
        active := active - 1;
        pipes.Swap(index, active);
        if current == active { current := 0; }
        assert pipes.items[active] == p;
      }
    }

    /** The current pipe cannot be written to. */
    method Skip()
      requires Valid() && active > 0
      modifies this`active, this`current, pipes
      ensures Valid() && View() == Deactivate(old(View()))
    {
      DeactivateOk(View());
      active := active - 1;
      if current < active {
        pipes.Swap(current, active);
      } else {
        SwapSelf(pipes.items, active);
        current := 0;
      }
    }

    /** Writes a part to the current pipe, or the first ready one; the later parts of a message are
        accepted by the pipe that took the first. */
    method SendPipe(writable: set<Pipe>, msgMore: bool) returns (sent: bool, served: Option<Pipe>)
      requires Valid() && (more && !dropping && active > 0 ==> Head(View()) in writable)
      modifies this, pipes
      ensures Valid()
      ensures old(dropping) ==> sent && served == None && View() == old(View()) && more == msgMore && dropping == msgMore
      ensures !old(dropping) ==>
        var s := Settle(old(View()), writable);
        if s.active == 0 then !sent && served == None && View() == s && more == old(more) && !dropping
        else sent && served == Some(Head(s)) && more == msgMore && !dropping && View() == if msgMore then s else Next(s)
    {
      if dropping {
        more := msgMore;
        dropping := more;
        return true, None;
      }
      served := None;
      while active > 0
        invariant Valid() && more == old(more) && !dropping && served.None?
        invariant more && active > 0 ==> Head(View()) in writable
        invariant Settle(View(), writable) == Settle(old(View()), writable)
        decreases active
      {
        if pipes.items[current] in writable {
          served := Some(pipes.items[current]);
          break;
        }
        assert !more;
        Skip();
      }
      if active == 0 { return false, served; }
      more := msgMore;
      if !more {
        WrapAround(current, active);
        current := (current + 1) % active;
      }
      sent := true;
    }

    /** Something can be written: the rest of a message, or a message to an active pipe. */
    method HasOut(ready: set<Pipe>) returns (r: bool)
      requires Valid()
      modifies this`active, this`current, pipes
      ensures Valid() && View() == if more then old(View()) else Settle(old(View()), ready)
      ensures r <==> more || exists q :: IsActive(old(View()), q) && q in ready
    {
      if more { return true; }
      SettleFinds(View(), ready);
      while active > 0
        invariant Valid() && Settle(View(), ready) == Settle(old(View()), ready)
        decreases active
      {
        if pipes.items[current] in ready { return true; }
        Skip();
      }
      return false;
    }
  }
}
