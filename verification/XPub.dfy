/** xpub_t: the publishing socket, proved to take the steps of Publisher. */
module XPub {
  import opened Basics
  import opened Topics
  import opened PipeArray
  import opened Distribution
  import opened Publisher
  import MTrie

  const XPUB_VERBOSE := 40
  const SIZE_OF_INT := 4

  /** A message read from a subscriber's pipe. */
  datatype Upstream = Upstream(data: Topic, flags: nat)

  /** The messages read from one pipe, as events. */
  function Reads(p: Pipe, subs: seq<Upstream>): (es: seq<Event>)
    ensures |es| == |subs| && forall i :: 0 <= i < |es| ==> es[i] == Incoming(p, subs[i].data)
  {
    seq(|subs|, i requires 0 <= i < |subs| => Incoming(p, subs[i].data))
  }

  class XPub {
    const xpub: bool
    const subscriptions: MTrie.Node
    const dist: Dist
    var verbose: bool
    var more: bool
    var pendingData: seq<Topic>
    var pendingFlags: seq<nat>
    ghost var received: seq<Topic>

    ghost predicate Valid()
      reads this, subscriptions, subscriptions.Repr, dist, dist.pipes
    {
      Ready() && Good(View())
    }

    /** The trie, the groups and the queue are well formed. */
    ghost predicate Ready()
      reads this, subscriptions, subscriptions.Repr, dist, dist.pipes
    {
      subscriptions.Valid() && dist.Valid() && |pendingData| == |pendingFlags|
    }

    ghost function View(): Pub
      requires dist.Valid()
      reads this, subscriptions, dist, dist.pipes
    {
      Pub(xpub, verbose, subscriptions.subs, dist.View(), more, received + pendingData)
    }

    constructor (xpub: bool)
      ensures Valid() && View() == Init(xpub) && fresh(subscriptions.Repr) && fresh(dist) && fresh(dist.pipes)
    {
      this.xpub := xpub;
      subscriptions := new MTrie.Node();
      dist := new Dist();
      verbose, more := false, false;
      pendingData, pendingFlags, received := [], [], [];
    }

    /** Only ZMQ_XPUB_VERBOSE can be set, by a non-negative int of the right size; anything else is
        EINVAL and changes nothing. */
    method XSetsockopt(option: int, optval: int, optvallen: nat) returns (ok: bool)
      requires Valid()
      modifies this`verbose
      ensures ok <==> option == XPUB_VERBOSE && optvallen == SIZE_OF_INT && optval >= 0
      ensures Valid() && View() == if ok then Step(old(View()), SetVerbose(optval != 0)) else old(View())
    {
      if option != XPUB_VERBOSE { return false; }
      if optvallen != SIZE_OF_INT || optval < 0 { return false; }
      verbose := optval != 0;
      return true;
    }

    method XWriteActivated(p: Pipe)
      requires Valid() && Legal(View(), Writable(p))
      modifies dist, dist.pipes
      ensures Valid() && View() == Step(old(View()), Writable(p))
    {
      StepGood(View(), Writable(p));
      dist.Activated(p);
    }

    /** Attaches the pipe and reads the subscriptions waiting in it. */
    method XAttachPipe(p: Pipe, all: bool, subs: seq<Upstream>)
      requires Valid() && LegalRun(View(), [Attach(p, all)] + Reads(p, subs))
      modifies this, subscriptions.Repr, dist, dist.pipes
      ensures Valid() && View() == Run(old(View()), [Attach(p, all)] + Reads(p, subs))
      ensures fresh(subscriptions.Repr - old(subscriptions.Repr))
    {
      ghost var es := [Attach(p, all)] + Reads(p, subs);
      assert es[0] == Attach(p, all) && es[1..] == Reads(p, subs);
      StepGood(View(), Attach(p, all));
      AttachOnly(p, all);
      XReadActivated(p, subs);
    }

    method AttachOnly(p: Pipe, all: bool)
      requires Ready() && p !in View().groups.all
      modifies subscriptions.Repr, dist, dist.pipes
      ensures Ready() && View() == Step(old(View()), Attach(p, all))
      ensures fresh(subscriptions.Repr - old(subscriptions.Repr))
    {
      AddToGroups(p);
      SubscribeToAll(p, all);
    }

    method AddToGroups(p: Pipe)
      requires Ready() && p !in View().groups.all
      modifies dist, dist.pipes
      ensures Ready() && View() == old(View()).(groups := Attached(old(View()).groups, p))
      ensures subscriptions.Repr == old(subscriptions.Repr)
    {
      dist.Attach(p);
    }

    method SubscribeToAll(p: Pipe, all: bool)
      requires Ready()
      modifies subscriptions.Repr
      ensures Ready() && fresh(subscriptions.Repr - old(subscriptions.Repr))
      ensures View() == old(View()).(subs := if all then MTrie.With(old(View()).subs, [], p) else old(View()).subs)
    {
      if all { var unique := subscriptions.Add([], p); }
    }

    /** Reads the waiting subscriptions. */
    method XReadActivated(p: Pipe, subs: seq<Upstream>)
      requires Valid() && LegalRun(View(), Reads(p, subs))
      modifies this, subscriptions.Repr
      ensures Valid() && View() == Run(old(View()), Reads(p, subs))
      ensures fresh(subscriptions.Repr - old(subscriptions.Repr))
    {
      var i := 0;
      assert subs[0..] == subs;
      while i < |subs|
        invariant i <= |subs| && Valid() && fresh(subscriptions.Repr - old(subscriptions.Repr))
        invariant LegalRun(View(), Reads(p, subs[i..]))
        invariant Run(View(), Reads(p, subs[i..])) == old(Run(View(), Reads(p, subs)))
      {
        ghost var es := Reads(p, subs[i..]);
        assert es[0] == Incoming(p, subs[i].data) && es[1..] == Reads(p, subs[i + 1..]);
        ReadOne(p, subs[i]);
        i := i + 1;
      }
    }

    method ReadOne(p: Pipe, sub: Upstream)
      requires Valid() && Legal(View(), Incoming(p, sub.data))
      modifies this`pendingData, this`pendingFlags, subscriptions.Repr
      ensures Valid() && View() == Receive(old(View()), p, sub.data)
      ensures fresh(subscriptions.Repr - old(subscriptions.Repr))
    {
      StepGood(View(), Incoming(p, sub.data));
      if |sub.data| > 0 && (sub.data[0] == 0 || sub.data[0] == 1) {
        ReadSubscription(p, sub.data);
      } else {
        Queue(sub.data, sub.flags);
      }
    }

    /** Applies a subscription or an unsubscription, and queues it if it is news or repeats are
        wanted. */
    method ReadSubscription(p: Pipe, data: Topic)
      requires Ready() && (IsSub(data) || IsUnsub(data))
      requires IsUnsub(data) && data[1..] in View().subs ==> p in View().subs[data[1..]]
      modifies this`pendingData, this`pendingFlags, subscriptions.Repr
      ensures Ready() && View() == Receive(old(View()), p, data)
      ensures fresh(subscriptions.Repr - old(subscriptions.Repr))
    {
      var unique := Apply(data, p);
      if xpub && (unique || (data[0] != 0 && verbose)) { Queue(data, 0); }
    }

    /** Applies a subscription or an unsubscription to the trie. */
    method Apply(data: Topic, p: Pipe) returns (unique: bool)
      requires Ready() && (IsSub(data) || IsUnsub(data))
      requires IsUnsub(data) && data[1..] in View().subs ==> p in View().subs[data[1..]]
      modifies subscriptions.Repr
      ensures Ready() && fresh(subscriptions.Repr - old(subscriptions.Repr))
      ensures View() == old(View()).(subs :=
        if IsSub(data) then MTrie.With(old(View()).subs, data[1..], p)
        else MTrie.Without(old(View()).subs, data[1..], p))
      ensures unique ==
        if IsSub(data) then data[1..] !in old(View()).subs else LastUnsub(old(View()).subs, data[1..], p)
    {
      if data[0] == 0 {
        unique := subscriptions.RmTopic(data[1..], p);
      } else {
        unique := subscriptions.Add(data[1..], p);
      }
    }

    method Queue(data: Topic, flags: nat)
      requires Ready()
      modifies this`pendingData, this`pendingFlags
      ensures pendingData == old(pendingData) + [data] && pendingFlags == old(pendingFlags) + [flags]
      ensures Ready() && View() == old(View()).(log := old(View()).log + [data])
    {
      pendingData := pendingData + [data];
      pendingFlags := pendingFlags + [flags];
      assert received + pendingData == received + old(pendingData) + [data];
    }

    /** A pipe goes: its subscriptions are dropped and the unsubscriptions queued. */
    method XPipeTerminated(p: Pipe) returns (ghost calls: seq<Topic>)
      requires Valid() && p in View().groups.all
      modifies this`pendingData, this`pendingFlags, subscriptions.Repr, dist, dist.pipes
      ensures Legal(old(View()), Gone(p, calls))
      ensures Valid() && View() == Step(old(View()), Gone(p, calls))
      ensures subscriptions.Repr == old(subscriptions.Repr)
    {
      calls := DropSubscriptions(p);
      StepGood(old(View()), Gone(p, calls));
      RemoveFromGroups(p);
    }

    /** The trie's part of a pipe's end: the topics it was the last subscriber of are queued. */
    method DropSubscriptions(p: Pipe) returns (topics: seq<Topic>)
      requires Ready()
      modifies this`pendingData, this`pendingFlags, subscriptions.Repr
      ensures MTrie.Reports(topics, [], old(View()).subs, p)
      ensures Ready() && subscriptions.Repr == old(subscriptions.Repr)
      ensures View() == old(View()).(subs := MTrie.Unsubscribed(old(View()).subs, p),
                                     log := old(View()).log + if xpub then Unsubs(topics) else [])
    {
      topics := RemoveFromTrie(p);
      if xpub { QueueUnsubs(topics); }
    }

    method RemoveFromTrie(p: Pipe) returns (topics: seq<Topic>)
      requires Ready()
      modifies subscriptions.Repr
      ensures MTrie.Reports(topics, [], old(View()).subs, p)
      ensures Ready() && subscriptions.Repr == old(subscriptions.Repr)
      ensures View() == old(View()).(subs := MTrie.Unsubscribed(old(View()).subs, p))
    {
      topics := subscriptions.RmPipe(p, []);
    }

    /** The distributor's part. */
    method RemoveFromGroups(p: Pipe)
      requires Ready() && p in View().groups.all
      modifies dist, dist.pipes
      ensures Ready() && View() == old(View()).(groups := Distribution.Without(old(View()).groups, p))
    {
      dist.PipeTerminated(p);
    }

    method QueueUnsubs(topics: seq<Topic>)
      requires Ready()
      modifies this`pendingData, this`pendingFlags
      ensures Ready() && View() == old(View()).(log := old(View()).log + Unsubs(topics))
    {
      var i := 0;
      while i < |topics|
        invariant i <= |topics| && Ready()
        invariant View() == old(View()).(log := old(View()).log + Unsubs(topics)[..i])
      {
        Queue([0] + topics[i], 0);
        assert Unsubs(topics)[..i + 1] == Unsubs(topics)[..i] + [[0] + topics[i]];
        i := i + 1;
      }
    }

    /** Sends one part; `tried` lists the pipes it was offered to. */
    method XSend(data: Topic, msgMore: bool, accepting: set<Pipe>) returns (tried: seq<Pipe>)
      requires Valid()
      modifies this`more, dist, dist.pipes
      ensures Valid() && View() == Step(old(View()), Send(data, msgMore, accepting))
      ensures Distinct(tried) && forall p :: p in tried <==> p in Offer(old(View()), data)
    {
      StepGood(View(), Send(data, msgMore, accepting));
      Mark(data);
      tried := SendMarked(msgMore, accepting);
    }

    /** For a first part, marks the pipes it is for. */
    method Mark(data: Topic)
      requires Valid()
      modifies dist, dist.pipes
      ensures Ready() && View() == old(View()).(groups := old(View()).groups.(matching := Offer(old(View()), data)))
    {
      if !more { MarkMatching(data); }
    }

    /** Sends to the marked pipes, and clears the marks at the end of the message. */
    method SendMarked(msgMore: bool, accepting: set<Pipe>) returns (tried: seq<Pipe>)
      requires Ready()
      modifies this`more, dist, dist.pipes
      ensures Ready() && Distinct(tried) && forall p :: p in tried <==> p in old(View()).groups.matching
      ensures var g := Sent(old(View()).groups, msgMore, accepting);
        View() == old(View()).(groups := if msgMore then g else g.(matching := {}), more := msgMore)
    {
      tried := SendToMarked(msgMore, accepting);
      if !msgMore { dist.Unmatch(); }
      more := msgMore;
    }

    method SendToMarked(msgMore: bool, accepting: set<Pipe>) returns (tried: seq<Pipe>)
      requires Ready()
      modifies dist, dist.pipes
      ensures Ready() && Distinct(tried) && forall p :: p in tried <==> p in old(View()).groups.matching
      ensures View() == old(View()).(groups := Sent(old(View()).groups, msgMore, accepting))
    {
      tried := dist.SendToMatching(msgMore, accepting);
    }

    /** Marks the pipes that the trie signals. */
    method MarkMatching(data: Topic)
      requires Valid() && !more
      modifies dist, dist.pipes
      ensures Ready() && View() == old(View()).(groups := old(View()).groups.(matching := Offer(old(View()), data)))
    {
      var marks := subscriptions.Match(data);
      forall p | p in marks ensures p in dist.View().all { MatchAttached(View().subs, dist.View().all, data, p); }
      MarkedAll(View(), data, marks);
      MarkAll(marks);
    }

    /** Marks the eligible ones among the pipes. */
    method MarkAll(marks: seq<Pipe>)
      requires dist.Valid() && !dist.more && dist.View().matching == {} && forall p :: p in marks ==> p in dist.View().all
      modifies dist, dist.pipes
      ensures dist.Valid() && dist.View() == Marked(old(dist.View()), marks)
    {
      ghost var g := dist.View();
      var i := 0;
      while i < |marks|
        invariant i <= |marks| && dist.Valid()
        invariant dist.View() == Marked(g, marks[..i])
      {
        MarkedNext(g, marks, i);
        dist.ViewNested();
        dist.Match(marks[i]);
        i := i + 1;
      }
      assert marks[..i] == marks;
    }

    /** Hands the oldest queued message to the user. */
    method XRecv() returns (r: Option<Upstream>)
      requires Valid()
      modifies this`pendingData, this`pendingFlags, this`received
      ensures Valid() && View() == old(View())
      ensures r.None? <==> old(pendingData) == []
      ensures r.Some? ==>
        && r.value == Upstream(old(pendingData)[0], old(pendingFlags)[0]) && received == old(received) + [r.value.data]
    {
      if pendingData == [] { return None; }
      r := Some(Upstream(pendingData[0], pendingFlags[0]));
      received := received + [pendingData[0]];
      pendingData, pendingFlags := pendingData[1..], pendingFlags[1..];
    }
  }
}
