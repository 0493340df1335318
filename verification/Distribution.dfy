/** dist_t: sends each message part to a set of pipes. The pipes sit in one array whose front
    holds, in nested prefixes, the pipes matching the current message, the active ones and the
    eligible ones. */
module Distribution {
  import opened Basics
  import opened PipeArray

  /** The nested groups as sets. */
  datatype Groups = Groups(all: set<Pipe>, eligible: set<Pipe>, active: set<Pipe>, matching: set<Pipe>, more: bool)

  /** What every operation keeps: the groups are nested, and between messages every eligible pipe
      is active. */
  predicate Nested(g: Groups) {
    && g.matching <= g.active <= g.eligible <= g.all
    && (!g.more ==> g.active == g.eligible)
  }

  /** A pipe joining in the middle of a message has to wait for the next one. */
  function Attached(g: Groups, p: Pipe): Groups {
    Groups(g.all + {p}, g.eligible + {p}, g.active + (if g.more then {} else {p}), g.matching, g.more)
  }

  /** So does a passive pipe that can take messages again. */
  function Reactivated(g: Groups, p: Pipe): Groups {
    Groups(g.all, g.eligible + {p}, g.active + (if g.more then {} else {p}), g.matching, g.more)
  }

  function Without(g: Groups, p: Pipe): Groups {
    Groups(g.all - {p}, g.eligible - {p}, g.active - {p}, g.matching - {p}, g.more)
  }

  /** Pipes that refused a write become passive. */
  function Refused(g: Groups, ps: set<Pipe>): Groups {
    Groups(g.all, g.eligible - ps, g.active - ps, g.matching - ps, g.more)
  }

  /** An eligible pipe is marked and takes the place of an active one. */
  function Pushed(g: Groups, p: Pipe, q: Pipe): Groups {
    g.(matching := g.matching + {p}, active := g.active - {q} + {p})
  }

  /** A part was offered to the matching pipes, of which `accepting` took it. */
  function Sent(g: Groups, msgMore: bool, accepting: set<Pipe>): Groups {
    var h := Refused(g, g.matching - accepting);
    h.(active := if msgMore then h.active else h.eligible, more := msgMore)
  }

  /** Progress of a distribution: `refused` and `done` were tried, each once. */
  ghost predicate Offered(matching: set<Pipe>, accepting: set<Pipe>, refused: set<Pipe>, done: set<Pipe>, tried: seq<Pipe>) {
    && refused <= matching - accepting && done <= accepting
    && Distinct(tried) && forall p :: p in tried <==> p in refused || p in done
  }

  lemma OfferedNext(matching: set<Pipe>, accepting: set<Pipe>, refused: set<Pipe>, done: set<Pipe>, tried: seq<Pipe>, p: Pipe)
    requires Offered(matching, accepting, refused, done, tried) && p in matching - refused - done
    ensures if p in accepting then Offered(matching, accepting, refused, done + {p}, tried + [p])
            else Offered(matching, accepting, refused + {p}, done, tried + [p])
  {}

  /** When every pipe still matching was tried, each was tried once. */
  lemma OfferedAll(matching: set<Pipe>, accepting: set<Pipe>, refused: set<Pipe>, tried: seq<Pipe>)
    requires Offered(matching, accepting, refused, matching - refused, tried)
    ensures refused == matching - accepting && Distinct(tried) && forall p :: p in tried <==> p in matching
  {}

  lemma RefusedNext(g: Groups, ps: set<Pipe>, p: Pipe)
    ensures Refused(Refused(g, ps), {p}) == Refused(g, ps + {p})
  {}

  predicate Ordered(s: seq<Pipe>, m: nat, a: nat, e: nat) { m <= a <= e <= |s| }

  /** The groups at the front of the array. */
  function GroupsOf(s: seq<Pipe>, m: nat, a: nat, e: nat, more: bool): Groups
    requires Ordered(s, m, a, e)
  {
    Groups(Front(s, |s|), Front(s, e), Front(s, a), Front(s, m), more)
  }

  /** The groups are nested, as positions and as sets. */
  lemma GroupsNested(s: seq<Pipe>, m: nat, a: nat, e: nat, more: bool)
    requires Ordered(s, m, a, e) && (!more ==> a == e)
    ensures Nested(GroupsOf(s, m, a, e, more))
  {
    assert s[..m] <= s[..a] <= s[..e] <= s[..|s|];
  }

  /** A new pipe swapped to the end of the eligible group, or of the active one if the two are equal. */
  lemma Joined(s: seq<Pipe>, p: Pipe, m: nat, a: nat, e: nat, more: bool, t: seq<Pipe>)
    requires Ordered(s, m, a, e) && (!more ==> a == e)
    requires t == Swapped(s + [p], e, |s|)
    ensures var g := GroupsOf(s, m, a, e, more);
      GroupsOf(t, m, if more then a else a + 1, e + 1, more)
        == Groups(g.all + {p}, g.eligible + {p}, g.active + (if more then {} else {p}), g.matching, more)
  {
    var u := s + [p];
    Appended(s, p, m);
    Appended(s, p, a);
    Appended(s, p, e);
    assert t == Swapped(u, |s|, e);
    MovedIn(u, |s|, m, a, e, more);
  }

  /** A pipe behind the eligible group swapped to its end, or to that of the active one. */
  lemma MovedIn(s: seq<Pipe>, i: nat, m: nat, a: nat, e: nat, more: bool)
    requires Ordered(s, m, a, e) && e <= i < |s| && (!more ==> a == e)
    ensures var g := GroupsOf(s, m, a, e, more);
      GroupsOf(Swapped(s, i, e), m, if more then a else a + 1, e + 1, more)
        == Groups(g.all, g.eligible + {s[i]}, g.active + (if more then {} else {s[i]}), g.matching, more)
  {
    SwapIn(s, i, e);
    SwapAside(s, i, e, m);
    SwapAside(s, i, e, a);
    SwapAside(s, i, e, |s|);
  }

  lemma MatchedIn(s: seq<Pipe>, i: nat, m: nat, a: nat, e: nat, more: bool)
    requires Ordered(s, m, a, e) && m <= i < a
    ensures var g := GroupsOf(s, m, a, e, more);
      GroupsOf(Swapped(s, i, m), m + 1, a, e, more) == g.(matching := g.matching + {s[i]})
  {
    SwapIn(s, i, m);
    SwapAside(s, i, m, a);
    SwapAside(s, i, m, e);
    SwapAside(s, i, m, |s|);
  }

  lemma MatchedLate(s: seq<Pipe>, i: nat, m: nat, a: nat, e: nat, more: bool)
    requires Distinct(s) && Ordered(s, m, a, e) && m < a <= i < e
    ensures GroupsOf(Swapped(s, i, m), m + 1, a, e, more) == Pushed(GroupsOf(s, m, a, e, more), s[i], s[m])
  {
    SwapIn(s, i, m);
    SwapAcross(s, i, m, a);
    SwapAside(s, i, m, e);
    SwapAside(s, i, m, |s|);
  }

  lemma OutOfMatching(s: seq<Pipe>, i: nat, m: nat, a: nat, e: nat, more: bool)
    requires Distinct(s) && Ordered(s, m, a, e) && i < m
    ensures var g := GroupsOf(s, m, a, e, more);
      GroupsOf(Swapped(s, i, m - 1), m - 1, a, e, more) == g.(matching := g.matching - {s[i]})
    ensures Swapped(s, i, m - 1)[m - 1] == s[i]
  {
    SwapOut(s, i, m);
    SwapAside(s, i, m - 1, a);
    SwapAside(s, i, m - 1, e);
    SwapAside(s, i, m - 1, |s|);
  }

  lemma OutOfActive(s: seq<Pipe>, i: nat, m: nat, a: nat, e: nat, more: bool)
    requires Distinct(s) && Ordered(s, m, a, e) && m <= i < a
    ensures var g := GroupsOf(s, m, a, e, more);
      GroupsOf(Swapped(s, i, a - 1), m, a - 1, e, more) == g.(active := g.active - {s[i]})
    ensures Swapped(s, i, a - 1)[a - 1] == s[i] && Swapped(s, i, a - 1)[..m] == s[..m]
  {
    SwapOut(s, i, a);
    SwapAside(s, i, a - 1, m);
    SwapAside(s, i, a - 1, e);
    SwapAside(s, i, a - 1, |s|);
  }

  lemma OutOfEligible(s: seq<Pipe>, i: nat, m: nat, a: nat, e: nat, more: bool)
    requires Distinct(s) && Ordered(s, m, a, e) && a <= i < e
    ensures var g := GroupsOf(s, m, a, e, more);
      GroupsOf(Swapped(s, i, e - 1), m, a, e - 1, more) == g.(eligible := g.eligible - {s[i]})
    ensures Swapped(s, i, e - 1)[e - 1] == s[i] && Swapped(s, i, e - 1)[..m] == s[..m]
  {
    SwapOut(s, i, e);
    SwapAside(s, i, e - 1, m);
    SwapAside(s, i, e - 1, a);
    SwapAside(s, i, e - 1, |s|);
  }

  lemma OutOfAll(s: seq<Pipe>, i: nat, m: nat, a: nat, e: nat, more: bool)
    requires Distinct(s) && Ordered(s, m, a, e) && e <= i < |s|
    ensures var g := GroupsOf(s, m, a, e, more);
      GroupsOf(Swapped(s, i, |s| - 1)[..|s| - 1], m, a, e, more) == g.(all := g.all - {s[i]})
  {
    Erased(s, i, m);
    Erased(s, i, a);
    Erased(s, i, e);
    SwapOut(s, i, |s|);
    var t := Swapped(s, i, |s| - 1);
    assert t[..|s| - 1][..|s| - 1] == t[..|s| - 1];
  }

  /** Where a pipe stands in the array tells its groups. */
  lemma Standing(s: seq<Pipe>, i: nat, m: nat, a: nat, e: nat, more: bool)
    requires Distinct(s) && Ordered(s, m, a, e) && i < |s|
    ensures var g := GroupsOf(s, m, a, e, more);
      (s[i] in g.matching <==> i < m) && (s[i] in g.active <==> i < a) && (s[i] in g.eligible <==> i < e) && s[i] in g.all
  {
    InFront(s, i, m);
    InFront(s, i, a);
    InFront(s, i, e);
    InFront(s, i, |s|);
  }

  class Dist {
    const pipes: Array
    var matching: nat
    var active: nat
    var eligible: nat
    var more: bool

    ghost predicate Valid()
      reads this, pipes
    {
      pipes.Valid() && Ordered(pipes.items, matching, active, eligible) && (!more ==> active == eligible)
    }

    ghost function View(): (g: Groups)
      requires Valid()
      reads this, pipes
    {
      GroupsOf(pipes.items, matching, active, eligible, more)
    }

    lemma ViewNested()
      requires Valid()
      ensures Nested(View())
    {
      GroupsNested(pipes.items, matching, active, eligible, more);
    }

    lemma Member(p: Pipe)
      requires Valid()
      ensures p in View().all <==> p in pipes.items
    {
      assert pipes.items[..|pipes.items|] == pipes.items;
    }

    constructor ()
      ensures Valid() && fresh(pipes) && View() == Groups({}, {}, {}, {}, false)
    {
      pipes := new Array();
      matching, active, eligible, more := 0, 0, 0, false;
    }

    /** A pipe attached in the middle of a message has to wait for the next one. */
    method Attach(p: Pipe)
      requires Valid() && p !in View().all
      modifies this`active, this`eligible, pipes
      ensures Valid() && View() == Attached(old(View()), p)
    {
      Member(p);
      if more {
        pipes.PushBack(p);
        pipes.Swap(eligible, |pipes.items| - 1);
        eligible := eligible + 1;
      } else {
        pipes.PushBack(p);
        pipes.Swap(active, |pipes.items| - 1);
        active := active + 1;
        eligible := eligible + 1;
      }
      Joined(old(pipes.items), p, matching, old(active), old(eligible), more, pipes.items);
    }

    /** Marks an eligible pipe for the message about to be sent. Between messages every eligible pipe
        is active; in the middle of one, a pipe that is only eligible pushes an active one out of the
        active group, and overruns it if every active pipe is marked. */
    method Match(p: Pipe)
      requires Valid() && p in View().all
      modifies this`matching, pipes
      ensures pipes.Valid()
      ensures Valid() <==> p !in old(View()).eligible || p in old(View()).active || old(matching) < active
      ensures p !in old(View()).eligible || p in old(View()).active ==>
        View() == old(View()).(matching := old(View()).matching + ({p} * old(View()).eligible))
      ensures p in old(View()).eligible && p !in old(View()).active ==>
        && matching == old(matching) + 1
        && pipes.items == Swapped(old(pipes.items), old(pipes.Index(p)), old(matching))
        && (old(matching) < active ==> View() == Pushed(old(View()), p, old(pipes.items)[old(matching)]))
    {
      Member(p);
      Standing(pipes.items, pipes.Index(p), matching, active, eligible, more);
      if pipes.Index(p) < matching { return; }
      if pipes.Index(p) >= eligible { return; }
      ghost var s, i, m := pipes.items, pipes.Index(p), matching;
      pipes.Swap(pipes.Index(p), matching);
      matching := matching + 1;
      if i < active {
        MatchedIn(s, i, m, active, eligible, more);
      } else if m < active {
        MatchedLate(s, i, m, active, eligible, more);
      }
    }

    method Unmatch()
      requires Valid()
      modifies this`matching
      ensures Valid() && View() == old(View()).(matching := {})
    {
      matching := 0;
    }

    /** The pipe leaves the matching group ... */
    method LeaveMatching(p: Pipe)
      requires pipes.Valid() && Ordered(pipes.items, matching, active, eligible) && p in pipes.items
      modifies this`matching, pipes
      ensures pipes.Valid() && Ordered(pipes.items, matching, active, eligible)
      ensures p in pipes.items && pipes.Index(p) >= matching
      ensures var g := old(GroupsOf(pipes.items, matching, active, eligible, more));
        GroupsOf(pipes.items, matching, active, eligible, more) == g.(matching := g.matching - {p})
      ensures old(pipes.Index(p)) < old(matching) ==>
        && matching == old(matching) - 1
        && pipes.items == Swapped(old(pipes.items), old(pipes.Index(p)), matching)
      ensures (old(pipes.Index(p)) < active <==> pipes.Index(p) < active)
      ensures (old(pipes.Index(p)) < eligible <==> pipes.Index(p) < eligible)
    {
      Standing(pipes.items, pipes.Index(p), matching, active, eligible, more);
      if pipes.Index(p) < matching {
        OutOfMatching(pipes.items, pipes.Index(p), matching, active, eligible, more);
        pipes.Swap(pipes.Index(p), matching - 1);
        matching := matching - 1;
        assert pipes.items[matching] == p;
      }
    }

    /** ... the active group ... */
    method LeaveActive(p: Pipe)
      requires pipes.Valid() && Ordered(pipes.items, matching, active, eligible)
      requires p in pipes.items && pipes.Index(p) >= matching
      modifies this`active, pipes
      ensures pipes.Valid() && Ordered(pipes.items, matching, active, eligible)
      ensures p in pipes.items && pipes.Index(p) >= active && pipes.items[..matching] == old(pipes.items[..matching])
      ensures var g := old(GroupsOf(pipes.items, matching, active, eligible, more));
        GroupsOf(pipes.items, matching, active, eligible, more) == g.(active := g.active - {p})
      ensures active == old(active) - if old(pipes.Index(p)) < old(active) then 1 else 0
      ensures old(pipes.Index(p)) < eligible <==> pipes.Index(p) < eligible
    {
      Standing(pipes.items, pipes.Index(p), matching, active, eligible, more);
      if pipes.Index(p) < active {
        OutOfActive(pipes.items, pipes.Index(p), matching, active, eligible, more);
        pipes.Swap(pipes.Index(p), active - 1);
        active := active - 1;
        assert pipes.items[active] == p;
      }
    }

    /** ... and the eligible group. */
    method LeaveEligible(p: Pipe)
      requires pipes.Valid() && Ordered(pipes.items, matching, active, eligible)
      requires p in pipes.items && pipes.Index(p) >= active
      modifies this`eligible, pipes
      ensures pipes.Valid() && Ordered(pipes.items, matching, active, eligible)
      ensures p in pipes.items && pipes.Index(p) >= eligible && pipes.items[..matching] == old(pipes.items[..matching])
      ensures var g := old(GroupsOf(pipes.items, matching, active, eligible, more));
        GroupsOf(pipes.items, matching, active, eligible, more) == g.(eligible := g.eligible - {p})
      ensures eligible == old(eligible) - if old(pipes.Index(p)) < old(eligible) then 1 else 0
    {
      Standing(pipes.items, pipes.Index(p), matching, active, eligible, more);
      if pipes.Index(p) < eligible {
        OutOfEligible(pipes.items, pipes.Index(p), matching, active, eligible, more);
        pipes.Swap(pipes.Index(p), eligible - 1);
        eligible := eligible - 1;
        assert pipes.items[eligible] == p;
      }
    }

    /** The pipe leaves every group but that of all pipes. */
    method Leave(p: Pipe)
      requires Valid() && p in pipes.items
      modifies this`matching, this`active, this`eligible, pipes
      ensures Valid() && View() == Refused(old(View()), {p})
      ensures p in pipes.items && pipes.Index(p) >= eligible
      ensures old(pipes.Index(p)) < old(matching) ==>
        && matching == old(matching) - 1
        && pipes.items[..matching] == Swapped(old(pipes.items), old(pipes.Index(p)), matching)[..matching]
    {
      LeaveMatching(p);
      LeaveActive(p);
      LeaveEligible(p);
    }

    /** The pipe is gone. */
    method PipeTerminated(p: Pipe)
      requires Valid() && p in View().all
      modifies this`matching, this`active, this`eligible, pipes
      ensures Valid() && View() == Without(old(View()), p)
    {
      Member(p);
      Leave(p);
      Erase(p);
    }

    method Erase(p: Pipe)
      requires Valid() && p in pipes.items && pipes.Index(p) >= eligible
      modifies pipes
      ensures Valid() && View() == old(View()).(all := old(View()).all - {p})
    {
      OutOfAll(pipes.items, pipes.Index(p), matching, active, eligible, more);
      pipes.Erase(p);
    }

    /** A passive pipe can take messages again, the current one excepted. */
    method Activated(p: Pipe)
      requires Valid() && p in View().all - View().eligible
      modifies this`active, this`eligible, pipes
      ensures Valid() && View() == Reactivated(old(View()), p)
    {
      Member(p);
      Standing(pipes.items, pipes.Index(p), matching, active, eligible, more);
      MovedIn(pipes.items, pipes.Index(p), matching, active, eligible, more);
      pipes.Swap(pipes.Index(p), eligible);
      eligible := eligible + 1;
      if !more {
        SwapSelf(pipes.items, active);
        pipes.Swap(eligible - 1, active);
        active := active + 1;
      }
    }

    /** Offers the part to one matching pipe; a pipe that refuses it becomes passive. */
    method Write(p: Pipe, accepts: bool) returns (ok: bool)
      requires Valid() && p in View().matching
      modifies this`matching, this`active, this`eligible, pipes
      ensures Valid() && ok == accepts
      ensures ok ==> pipes.items == old(pipes.items) && View() == old(View()) && matching == old(matching)
      ensures !ok ==> View() == Refused(old(View()), {p}) && matching == old(matching) - 1
      ensures !ok ==> pipes.items[..matching] == Swapped(old(pipes.items), old(pipes.Index(p)), matching)[..matching]
    {
      if !accepts {
        Member(p);
        Standing(pipes.items, pipes.Index(p), matching, active, eligible, more);
        Leave(p);
        return false;
      }
      return true;
    }

    /** Offers the part to every matching pipe exactly once, although a refusal swaps another
        pipe into the slot just tried. */
    method Distribute(accepting: set<Pipe>) returns (tried: seq<Pipe>, failed: nat)
      requires Valid()
      modifies this`matching, this`active, this`eligible, pipes
      ensures Valid() && View() == Refused(old(View()), old(View()).matching - accepting)
      ensures Distinct(tried) && forall p :: p in tried <==> p in old(View()).matching
      ensures failed == |old(View()).matching - accepting|
    {
      tried, failed := [], 0;
      var i := 0;
      ghost var g, refused, done := View(), {}, {};
      while i < matching
        invariant i <= matching && Valid() && View() == Refused(g, refused)
        invariant failed == |refused| && done == Front(pipes.items, i)
        invariant Offered(g.matching, accepting, refused, done, tried)
        decreases matching - i
      {
        var p, ok := Offer(i, accepting);
        OfferedNext(g.matching, accepting, refused, done, tried, p);
        tried := tried + [p];
        if ok {
          i := i + 1;
          done := done + {p};
        } else {
          failed := failed + 1;
          RefusedNext(g, refused, p);
          refused := refused + {p};
        }
      }
      OfferedAll(g.matching, accepting, refused, tried);
    }

    /** Offers the part to the pipe in slot `i`. */
    method Offer(i: nat, accepting: set<Pipe>) returns (p: Pipe, ok: bool)
      requires Valid() && i < matching
      modifies this`matching, this`active, this`eligible, pipes
      ensures Valid() && ok == (p in accepting) && i <= matching
      ensures p in old(View()).matching && p !in old(Front(pipes.items, i))
      ensures View() == if ok then old(View()) else Refused(old(View()), {p})
      ensures ok ==> matching == old(matching) && Front(pipes.items, i + 1) == old(Front(pipes.items, i)) + {p}
      ensures !ok ==> matching == old(matching) - 1 && Front(pipes.items, i) == old(Front(pipes.items, i))
    {
      p := pipes.items[i];
      Standing(pipes.items, i, matching, active, eligible, more);
      InFront(pipes.items, i, i);
      FrontNext(pipes.items, i);
      ghost var s := pipes.items;
      ok := Write(p, p in accepting);
      if !ok { assert pipes.items[..i] == pipes.items[..matching][..i] == s[..i]; }
    }

    /** Sends one part to the pipes marked for the message. */
    method SendToMatching(msgMore: bool, accepting: set<Pipe>) returns (tried: seq<Pipe>)
      requires Valid()
      modifies this, pipes
      ensures Valid() && View() == Sent(old(View()), msgMore, accepting)
      ensures Distinct(tried) && forall p :: p in tried <==> p in old(View()).matching
    {
      var failed;
      tried, failed := Distribute(accepting);
      if !msgMore { active := eligible; }
      more := msgMore;
    }
  }
}
