/** What the runs of a publishing socket amount to, told by their events alone: who is offered a message,
    and what is handed upstream. */
module PublisherHistory {
  import opened Basics
  import opened Topics
  import opened PipeArray
  import opened Distribution
  import opened Publisher
  import MTrie

  lemma {:induction false} RunNext(s: Pub, es: seq<Event>, e: Event)
    ensures Run(s, es + [e]) == Step(Run(s, es), e)
    ensures LegalRun(s, es + [e]) <==> LegalRun(s, es) && Legal(Run(s, es), e)
    decreases |es|
  {
    if es == [] {
      assert es + [e] == [e] && [e][1..] == [];
      assert Run(Step(s, e), []) == Step(s, e);
    } else {
      assert (es + [e])[1..] == es[1..] + [e] && (es + [e])[0] == es[0];
      RunNext(Step(s, es[0]), es[1..], e);
    }
  }

  /** Some event before the `k`th switches on, and none of the `n` switches off after it. */
  ghost predicate Since(k: nat, n: nat, on: nat -> bool, off: nat -> bool) {
    exists i: nat :: i < k && on(i) && forall j: nat :: i < j < n ==> !off(j)
  }

  ghost predicate SameBefore(n: nat, p: nat -> bool, q: nat -> bool) { forall i: nat :: i < n ==> p(i) == q(i) }

  lemma SinceNext(k: nat, n: nat, on: nat -> bool, off: nat -> bool, on': nat -> bool, off': nat -> bool)
    requires k <= n && SameBefore(n, on, on') && SameBefore(n, off, off')
    ensures Since(k, n + 1, on', off') <==> Since(k, n, on, off) && !off'(n)
    ensures k == n ==> (Since(n + 1, n + 1, on', off') <==> on'(n) || (Since(n, n, on, off) && !off'(n)))
  {
    if Since(k, n, on, off) && !off'(n) {
      var i: nat :| i < k && on(i) && forall j: nat :: i < j < n ==> !off(j);
      assert i < k && on'(i) && forall j: nat :: i < j < n + 1 ==> !off'(j);
    }
    if Since(k, n + 1, on', off') {
      var i: nat :| i < k && on'(i) && forall j: nat :: i < j < n + 1 ==> !off'(j);
      assert i < k && on(i) && forall j: nat :: i < j < n ==> !off(j);
      assert i < n < n + 1;
    }
    if k == n && Since(n + 1, n + 1, on', off') {
      var i: nat :| i < n + 1 && on'(i) && forall j: nat :: i < j < n + 1 ==> !off'(j);
      if i < n { assert on(i) && forall j: nat :: i < j < n ==> !off(j); }
    }
    if k == n && on'(n) { assert n < n + 1 && forall j: nat :: n < j < n + 1 ==> !off'(j); }
    if k == n && Since(n, n, on, off) && !off'(n) {
      assert Since(n, n + 1, on', off');
      var i: nat :| i < n && on'(i) && forall j: nat :: i < j < n + 1 ==> !off'(j);
      assert i < n + 1;
    }
  }

  // ----- Who can take messages ------------------------------------------------------------------

  /** Event `i` makes the pipe able to take messages. */
  predicate JoinsAt(es: seq<Event>, i: nat, p: Pipe) {
    i < |es| && ((es[i].Attach? && es[i].pipe == p) || (es[i].Writable? && es[i].pipe == p))
  }

  /** Event `i` ends that: the pipe goes, or refuses a part that it is offered. */
  ghost predicate QuitsAt(xpub: bool, es: seq<Event>, i: nat, p: Pipe) {
    i < |es| && (
      || (es[i].Gone? && es[i].pipe == p)
      || (es[i].Send? && p !in es[i].accepting && p in Offer(Run(Init(xpub), es[..i]), es[i].data)))
  }

  /** After one of the first `k` events made it able to take messages the pipe neither went away nor
      refused a part. */
  ghost predicate CanTake(xpub: bool, es: seq<Event>, k: nat, p: Pipe) {
    Since(k, |es|, (i: nat) => JoinsAt(es, i, p), (i: nat) => QuitsAt(xpub, es, i, p))
  }

  lemma CanTakeNext(xpub: bool, es: seq<Event>, e: Event, k: nat, p: Pipe)
    requires k <= |es|
    ensures var all := es + [e]; var quits := QuitsAt(xpub, all, |es|, p);
      && (CanTake(xpub, all, k, p) <==> CanTake(xpub, es, k, p) && !quits)
      && (k == |es| ==> (CanTake(xpub, all, k + 1, p) <==> JoinsAt(all, |es|, p) || (CanTake(xpub, es, k, p) && !quits)))
  {
    var all := es + [e];
    forall i: nat | i < |es| ensures QuitsAt(xpub, es, i, p) == QuitsAt(xpub, all, i, p) {
      assert all[..i] == es[..i] && all[i] == es[i];
    }
    SinceNext(k, |es|, (i: nat) => JoinsAt(es, i, p), (i: nat) => QuitsAt(xpub, es, i, p),
              (i: nat) => JoinsAt(all, i, p), (i: nat) => QuitsAt(xpub, all, i, p));
  }

  /** A message is in progress. */
  predicate InMessage(es: seq<Event>)
    decreases |es|
  {
    es != [] && var n := |es| - 1; if es[n].Send? then es[n].msgMore else InMessage(es[..n])
  }

  /** The number of events before the message in progress, or of all if there is none. */
  function Begun(es: seq<Event>): (k: nat)
    ensures k <= |es|
    decreases |es|
  {
    if !InMessage(es) then |es| else
      var n := |es| - 1; if InMessage(es[..n]) then Begun(es[..n]) else n
  }

  /** The groups of the distributor, told by the events. */
  ghost predicate GroupsTold(xpub: bool, es: seq<Event>, p: Pipe) {
    var t := Run(Init(xpub), es);
    && (t.more <==> InMessage(es))
    && (p in t.groups.eligible <==> CanTake(xpub, es, |es|, p))
    && (p in t.groups.active <==> CanTake(xpub, es, Begun(es), p))
  }

  lemma GroupsNext(xpub: bool, es: seq<Event>, e: Event, p: Pipe)
    requires GroupsTold(xpub, es, p) && Good(Run(Init(xpub), es)) && Legal(Run(Init(xpub), es), e)
    ensures GroupsTold(xpub, es + [e], p)
  {
    var s, all := Run(Init(xpub), es), es + [e];
    RunNext(Init(xpub), es, e);
    assert all[..|es|] == es && all[|es|] == e;
    CanTakeNext(xpub, es, e, |es|, p);
    CanTakeNext(xpub, es, e, Begun(es), p);
    GroupsStep(s, e, p);
  }

  /** How one event changes what a pipe is part of. */
  lemma GroupsStep(s: Pub, e: Event, p: Pipe)
    requires Good(s) && Legal(s, e)
    ensures var t := Step(s, e);
      var joins := (e.Attach? && e.pipe == p) || (e.Writable? && e.pipe == p);
      var quits := (e.Gone? && e.pipe == p) || (e.Send? && p !in e.accepting && p in Offer(s, e.data));
      && t.more == (if e.Send? then e.msgMore else s.more)
      && (p in t.groups.eligible <==> joins || (p in s.groups.eligible && !quits))
      && (p in t.groups.active <==>
            if t.more then p in s.groups.active && !quits else p in t.groups.eligible)
  {
    StepGood(s, e);
  }

  /** In every run a pipe is eligible if and only if it was attached or became writable and since then
      neither went away nor refused a part offered to it; it is active if and only if it was so before the
      message in progress. */
  lemma {:induction false} GroupsHistory(xpub: bool, es: seq<Event>, p: Pipe)
    requires LegalRun(Init(xpub), es)
    ensures Good(Run(Init(xpub), es)) && GroupsTold(xpub, es, p)
    decreases |es|
  {
    if es != [] {
      var n := |es| - 1;
      assert es == es[..n] + [es[n]];
      RunNext(Init(xpub), es[..n], es[n]);
      GroupsHistory(xpub, es[..n], p);
      GroupsNext(xpub, es[..n], es[n], p);
      StepGood(Run(Init(xpub), es[..n]), es[n]);
    }
  }

  predicate AttachedAt(es: seq<Event>, i: nat, p: Pipe) { i < |es| && es[i].Attach? && es[i].pipe == p }

  predicate GoneAt(es: seq<Event>, i: nat, p: Pipe) { i < |es| && es[i].Gone? && es[i].pipe == p }

  ghost predicate Present(es: seq<Event>, p: Pipe) {
    Since(|es|, |es|, (i: nat) => AttachedAt(es, i, p), (i: nat) => GoneAt(es, i, p))
  }

  lemma PresentNext(es: seq<Event>, e: Event, p: Pipe)
    ensures var all := es + [e];
      Present(all, p) <==> AttachedAt(all, |es|, p) || (Present(es, p) && !GoneAt(all, |es|, p))
  {
    var all := es + [e];
    SinceNext(|es|, |es|, (i: nat) => AttachedAt(es, i, p), (i: nat) => GoneAt(es, i, p),
              (i: nat) => AttachedAt(all, i, p), (i: nat) => GoneAt(all, i, p));
  }

  lemma PresentStep(s: Pub, e: Event, p: Pipe)
    ensures p in Step(s, e).groups.all <==>
      (e.Attach? && e.pipe == p) || (p in s.groups.all && !(e.Gone? && e.pipe == p))
  {}

  /** In every run the distributor holds the pipes that were attached and have not gone since. */
  lemma {:induction false} PresentHistory(xpub: bool, es: seq<Event>, p: Pipe)
    requires LegalRun(Init(xpub), es)
    ensures p in Run(Init(xpub), es).groups.all <==> Present(es, p)
    decreases |es|
  {
    if es != [] {
      var n := |es| - 1;
      assert es == es[..n] + [es[n]];
      RunNext(Init(xpub), es[..n], es[n]);
      PresentHistory(xpub, es[..n], p);
      PresentNext(es[..n], es[n], p);
      PresentStep(Run(Init(xpub), es[..n]), es[n], p);
    }
  }

  // ----- Who is subscribed ------------------------------------------------------------------------

  predicate SubscribesAt(es: seq<Event>, i: nat, p: Pipe, t: Topic) {
    i < |es| && (
      || es[i] == Incoming(p, [1] + t)
      || (t == [] && es[i] == Attach(p, true)))
  }

  predicate UnsubscribesAt(es: seq<Event>, i: nat, p: Pipe, t: Topic) {
    i < |es| && (es[i] == Incoming(p, [0] + t) || (es[i].Gone? && es[i].pipe == p))
  }

  /** The pipe subscribed to the topic, by a message or implicitly when it was attached, and neither
      unsubscribed nor went away since. */
  ghost predicate Subscribed(es: seq<Event>, p: Pipe, t: Topic) {
    Since(|es|, |es|, (i: nat) => SubscribesAt(es, i, p, t), (i: nat) => UnsubscribesAt(es, i, p, t))
  }

  lemma SubscribedNext(es: seq<Event>, e: Event, p: Pipe, t: Topic)
    ensures var all := es + [e];
      Subscribed(all, p, t) <==> SubscribesAt(all, |es|, p, t) || (Subscribed(es, p, t) && !UnsubscribesAt(all, |es|, p, t))
  {
    var all := es + [e];
    SinceNext(|es|, |es|, (i: nat) => SubscribesAt(es, i, p, t), (i: nat) => UnsubscribesAt(es, i, p, t),
              (i: nat) => SubscribesAt(all, i, p, t), (i: nat) => UnsubscribesAt(all, i, p, t));
  }

  lemma SubsStep(s: Pub, e: Event, p: Pipe, t: Topic)
    requires Good(s)
    ensures p in MTrie.Get(Step(s, e).subs, t) <==>
      || e == Incoming(p, [1] + t) || (t == [] && e == Attach(p, true))
      || (p in MTrie.Get(s.subs, t) && e != Incoming(p, [0] + t) && !(e.Gone? && e.pipe == p))
  {
    if e.Incoming? { SubsReceived(s, e.pipe, e.data, p, t); }
  }

  lemma SubsReceived(s: Pub, q: Pipe, b: Topic, p: Pipe, t: Topic)
    requires Good(s)
    ensures p in MTrie.Get(Receive(s, q, b).subs, t) <==>
      (q == p && b == [1] + t) || (p in MTrie.Get(s.subs, t) && !(q == p && b == [0] + t))
  {
    if b != [] { assert b == [b[0]] + b[1..]; }
    assert ([0] + t)[1..] == t && ([1] + t)[1..] == t;
  }

  /** In every run the trie holds a pipe for a topic if and only if it is subscribed to it. */
  lemma {:induction false} SubsHistory(xpub: bool, es: seq<Event>, p: Pipe, t: Topic)
    requires LegalRun(Init(xpub), es)
    ensures Good(Run(Init(xpub), es))
    ensures p in MTrie.Get(Run(Init(xpub), es).subs, t) <==> Subscribed(es, p, t)
    decreases |es|
  {
    if es != [] {
      var n := |es| - 1;
      assert es == es[..n] + [es[n]];
      RunNext(Init(xpub), es[..n], es[n]);
      SubsHistory(xpub, es[..n], p, t);
      SubscribedNext(es[..n], es[n], p, t);
      SubsStep(Run(Init(xpub), es[..n]), es[n], p, t);
      StepGood(Run(Init(xpub), es[..n]), es[n]);
    }
  }

  /** Main theorem: in every run, the first part of a message is offered to a pipe if and only if the pipe
      was attached, or became writable again, and since then neither went away nor refused a part, and
      is subscribed to some prefix of the part. */
  lemma FirstPart(xpub: bool, es: seq<Event>, data: Topic, p: Pipe)
    requires LegalRun(Init(xpub), es) && !InMessage(es)
    ensures p in Offer(Run(Init(xpub), es), data) <==>
      CanTake(xpub, es, |es|, p) && exists i :: 0 <= i <= |data| && Subscribed(es, p, data[..i])
  {
    GroupsHistory(xpub, es, p);
    forall i | 0 <= i <= |data|
      ensures p in MTrie.Get(Run(Init(xpub), es).subs, data[..i]) <==> Subscribed(es, p, data[..i])
    {
      SubsHistory(xpub, es, p, data[..i]);
    }
  }

  // ----- What goes upstream -------------------------------------------------------------------------

  function Keep(keep: Topic -> bool, log: seq<Topic>): seq<Topic> {
    if log == [] then [] else (if keep(log[0]) then [log[0]] else []) + Keep(keep, log[1..])
  }

  lemma {:induction false} KeepAppend(keep: Topic -> bool, a: seq<Topic>, b: seq<Topic>)
    ensures Keep(keep, a + b) == Keep(keep, a) + Keep(keep, b)
  {
    if a == [] {
      assert a + b == b;
    } else {
      assert (a + b)[1..] == a[1..] + b && (a + b)[0] == a[0];
      KeepAppend(keep, a[1..], b);
    }
  }

  lemma {:induction false} KeepNone(keep: Topic -> bool, log: seq<Topic>)
    requires forall b <- log :: !keep(b)
    ensures Keep(keep, log) == []
  {
    if log != [] {
      assert log[0] in log && forall b <- log[1..] :: b in log;
      KeepNone(keep, log[1..]);
    }
  }

  /** The messages received in the course of a run. */
  function Received(es: seq<Event>): (log: seq<Topic>) {
    if es == [] then [] else (if es[0].Incoming? then [es[0].data] else []) + Received(es[1..])
  }

  /** Neither a subscription nor an unsubscription. */
  predicate IsUser(b: Topic) { b == [] || (b[0] != 0 && b[0] != 1) }

  function Message(e: Event): (log: seq<Topic>) { if e.Incoming? then [e.data] else [] }

  /** How an event adds to the messages of one kind in the log. */
  ghost predicate KindAdded(keep: Topic -> bool, s: Pub, e: Event) {
    Keep(keep, Step(s, e).log) == Keep(keep, s.log) + Keep(keep, Message(e))
  }

  /** The first event and the rest of a run. */
  lemma KindFirst(keep: Topic -> bool, s: Pub, es: seq<Event>)
    requires es != [] && KindAdded(keep, s, es[0])
    requires Keep(keep, Run(Step(s, es[0]), es[1..]).log) == Keep(keep, Step(s, es[0]).log) + Keep(keep, Received(es[1..]))
    ensures Keep(keep, Run(s, es).log) == Keep(keep, s.log) + Keep(keep, Received(es))
  {
    KeepAppend(keep, Message(es[0]), Received(es[1..]));
    Regroup(Keep(keep, s.log), Keep(keep, Message(es[0])), Keep(keep, Received(es[1..])));
  }

  lemma Regroup(a: seq<Topic>, b: seq<Topic>, c: seq<Topic>)
    ensures a + b + c == a + (b + c)
  {}

  /** An event adds its message if that is queued whenever it is of the kind, and no unsubscription is. */
  lemma EventAdds(keep: Topic -> bool, s: Pub, e: Event)
    requires forall t :: !keep([0] + t)
    requires e.Incoming? && keep(e.data) ==> Step(s, e).log == s.log + [e.data]
    ensures KindAdded(keep, s, e)
  {
    match e
    case Incoming(p, b) =>
      assert Keep(keep, [b]) == if keep(b) then [b] else [];
      assert Keep(keep, s.log) + [] == Keep(keep, s.log) && s.log + [] == s.log;
      assert Step(s, e).log == s.log || Step(s, e).log == s.log + [b];
      KeepAppend(keep, s.log, [b]);
    case Gone(p, calls) =>
      KeepAppend(keep, s.log, if s.xpub then Unsubs(calls) else []);
      KeepNone(keep, Unsubs(calls));
    case _ =>
  }

  /** In every run, the user's own messages among those queued are the user's messages received, in
      order. */
  lemma UserMessages(xpub: bool, es: seq<Event>)
    ensures Keep(IsUser, Run(Init(xpub), es).log) == Keep(IsUser, Received(es))
  {
    UserMessagesFrom(Init(xpub), es);
  }

  lemma {:induction false} UserMessagesFrom(s: Pub, es: seq<Event>)
    ensures Keep(IsUser, Run(s, es).log) == Keep(IsUser, s.log) + Keep(IsUser, Received(es))
    decreases |es|
  {
    if es != [] {
      UserMessagesFrom(Step(s, es[0]), es[1..]);
      EventAdds(IsUser, s, es[0]);
      KindFirst(IsUser, s, es);
    }
  }

  predicate IsSubscription(b: Topic) { b != [] && b[0] == 1 }

  /** A socket is verbose if it was told to be and not told otherwise since. */
  ghost predicate ToldVerbose(es: seq<Event>) {
    Since(|es|, |es|, (i: nat) => i < |es| && es[i] == SetVerbose(true), (i: nat) => i < |es| && es[i] == SetVerbose(false))
  }

  lemma ToldVerboseNext(es: seq<Event>, e: Event)
    ensures ToldVerbose(es + [e]) <==> e == SetVerbose(true) || (ToldVerbose(es) && e != SetVerbose(false))
  {
    var all := es + [e];
    SinceNext(|es|, |es|, (i: nat) => i < |es| && es[i] == SetVerbose(true), (i: nat) => i < |es| && es[i] == SetVerbose(false),
              (i: nat) => i < |all| && all[i] == SetVerbose(true), (i: nat) => i < |all| && all[i] == SetVerbose(false));
  }

  lemma {:induction false} VerboseHistory(xpub: bool, es: seq<Event>)
    ensures Run(Init(xpub), es).xpub == xpub && (Run(Init(xpub), es).verbose <==> ToldVerbose(es))
    decreases |es|
  {
    if es != [] {
      var n := |es| - 1;
      assert es == es[..n] + [es[n]];
      VerboseHistory(xpub, es[..n]);
      RunNext(Init(xpub), es[..n], es[n]);
      ToldVerboseNext(es[..n], es[n]);
    }
  }

  /** As long as a socket is verbose, the subscriptions queued are those received, in order and with
      every repeat. */
  lemma {:induction false} VerboseForwardsAll(s: Pub, es: seq<Event>)
    requires s.xpub && s.verbose && SetVerbose(false) !in es
    ensures Keep(IsSubscription, Run(s, es).log) == Keep(IsSubscription, s.log) + Keep(IsSubscription, Received(es))
    decreases |es|
  {
    if es != [] {
      assert es[0] in es && forall e :: e in es[1..] ==> e in es;
      VerboseForwardsAll(Step(s, es[0]), es[1..]);
      EventAdds(IsSubscription, s, es[0]);
      KindFirst(IsSubscription, s, es);
    }
  }

  /** A socket other than XPUB queues nothing else. */
  lemma {:induction false} NothingForwarded(s: Pub, es: seq<Event>)
    requires !s.xpub
    ensures Run(s, es).log == s.log + Keep(IsUser, Received(es))
    decreases |es|
  {
    if es != [] {
      NothingForwarded(Step(s, es[0]), es[1..]);
      KeepAppend(IsUser, Message(es[0]), Received(es[1..]));
      QueuesUser(s, es[0]);
      Regroup(s.log, Keep(IsUser, Message(es[0])), Keep(IsUser, Received(es[1..])));
    }
  }

  lemma QueuesUser(s: Pub, e: Event)
    requires !s.xpub
    ensures !Step(s, e).xpub && Step(s, e).log == s.log + Keep(IsUser, Message(e))
  {
    if e.Incoming? { assert Keep(IsUser, [e.data]) == if IsUser(e.data) then [e.data] else []; }
  }
}
