/** The publish path of xpub_t on values: subscriptions, groups of pipes and the events forwarded
    upstream, with the laws that hold over every run. */
module Publisher {
  import opened Basics
  import opened Topics
  import opened PipeArray
  import opened Distribution
  import MTrie

  type Subs = map<Topic, set<Pipe>>

  /** `log` holds every message ever queued for the user, received or not. */
  datatype Pub = Pub(xpub: bool, verbose: bool, subs: Subs, groups: Groups, more: bool, log: seq<Topic>)

  datatype Event =
    | Attach(pipe: Pipe, all: bool)
    | Incoming(pipe: Pipe, data: Topic)
    | Writable(pipe: Pipe)
    | Gone(pipe: Pipe, calls: seq<Topic>)
    | Send(data: Topic, msgMore: bool, accepting: set<Pipe>)
    | SetVerbose(on: bool)

  function Init(xpub: bool): Pub { Pub(xpub, false, map[], Groups({}, {}, {}, {}, false), false, []) }

  predicate IsSub(b: Topic) { |b| > 0 && b[0] == 1 }

  predicate IsUnsub(b: Topic) { |b| > 0 && b[0] == 0 }

  /** An unsubscription is passed on if it removed the last subscriber, or nobody had subscribed
      but a longer topic keeps a node for it. */
  ghost predicate LastUnsub(subs: Subs, t: Topic, p: Pipe) {
    if t in subs then t !in MTrie.Without(subs, t, p) else MTrie.IsNode(subs, t)
  }

  /** A message from a subscriber. */
  ghost function Receive(s: Pub, p: Pipe, b: Topic): Pub {
    if IsUnsub(b) then
      s.(subs := MTrie.Without(s.subs, b[1..], p),
         log := s.log + if s.xpub && LastUnsub(s.subs, b[1..], p) then [b] else [])
    else if IsSub(b) then
      s.(subs := MTrie.With(s.subs, b[1..], p),
         log := s.log + if s.xpub && (b[1..] !in s.subs || s.verbose) then [b] else [])
    else s.(log := s.log + [b])
  }

  function Unsubs(calls: seq<Topic>): (r: seq<Topic>)
    ensures |r| == |calls| && forall i :: 0 <= i < |r| ==> r[i] == [0] + calls[i]
  {
    seq(|calls|, i requires 0 <= i < |calls| => [0] + calls[i])
  }

  /** The pipes a part is offered to: those marked already, and for a first part every eligible
      pipe subscribed to some prefix of it. */
  ghost function Offer(s: Pub, data: Topic): set<Pipe> {
    s.groups.matching
      + if s.more then {} else (set p | p in s.groups.eligible && MTrie.Matches(s.subs, data, p))
  }

  /** The groups when the pipes in `marks` have been marked. */
  function Marked(g: Groups, marks: seq<Pipe>): Groups { g.(matching := g.eligible * set p | p in marks) }

  lemma MarkedNext(g: Groups, marks: seq<Pipe>, i: nat)
    requires i < |marks|
    ensures var h := Marked(g, marks[..i]);
      Marked(g, marks[..i + 1]) == h.(matching := h.matching + ({marks[i]} * h.eligible))
  {
    assert marks[..i + 1] == marks[..i] + [marks[i]];
  }

  /** Marking the pipes signalled for a first part gives those it is offered to. */
  lemma MarkedAll(s: Pub, data: Topic, marks: seq<Pipe>)
    requires !s.more && s.groups.matching == {} && forall p :: p in marks <==> MTrie.Matches(s.subs, data, p)
    ensures Marked(s.groups, marks).matching == Offer(s, data)
  {}

  ghost function SendPart(s: Pub, data: Topic, msgMore: bool, accepting: set<Pipe>): Pub {
    var g := Sent(s.groups.(matching := Offer(s, data)), msgMore, accepting);
    s.(groups := if msgMore then g else g.(matching := {}), more := msgMore)
  }

  ghost function Step(s: Pub, e: Event): Pub {
    match e
    case Attach(p, all) =>
      s.(groups := Attached(s.groups, p), subs := if all then MTrie.With(s.subs, [], p) else s.subs)
    case Incoming(p, b) => Receive(s, p, b)
    case Writable(p) => s.(groups := Reactivated(s.groups, p))
    case Gone(p, calls) =>
      s.(subs := MTrie.Unsubscribed(s.subs, p), groups := Distribution.Without(s.groups, p),
         log := s.log + if s.xpub then Unsubs(calls) else [])
    case Send(data, msgMore, accepting) => SendPart(s, data, msgMore, accepting)
    case SetVerbose(on) => s.(verbose := on)
  }

  /** What the surrounding code guarantees: pipes are attached once, events come from attached
      pipes, only a pipe that refused a message becomes writable, and a pipe unsubscribes from a
      topic that has subscribers only if it is one of them. */
  ghost predicate Legal(s: Pub, e: Event) {
    match e
    case Attach(p, _) => p !in s.groups.all
    case Incoming(p, b) => p in s.groups.all && (IsUnsub(b) && b[1..] in s.subs ==> p in s.subs[b[1..]])
    case Writable(p) => p in s.groups.all - s.groups.eligible
    case Gone(p, calls) => p in s.groups.all && MTrie.Reports(calls, [], s.subs, p)
    case Send(_, _, _) => true
    case SetVerbose(_) => true
  }

  ghost predicate LegalRun(s: Pub, es: seq<Event>)
    decreases |es|
  {
    es == [] || (Legal(s, es[0]) && LegalRun(Step(s, es[0]), es[1..]))
  }

  ghost function Run(s: Pub, es: seq<Event>): Pub
    decreases |es|
  {
    if es == [] then s else Run(Step(s, es[0]), es[1..])
  }

  // ----- Invariants ---------------------------------------------------------------------

  ghost predicate SubsOk(subs: Subs, all: set<Pipe>) {
    forall t :: t in subs ==> subs[t] != {} && subs[t] <= all
  }

  /** The groups are nested, outside a message nothing is marked, and subscribers are attached. */
  ghost predicate Good(s: Pub) {
    && Nested(s.groups) && s.more == s.groups.more && (!s.more ==> s.groups.matching == {})
    && SubsOk(s.subs, s.groups.all)
  }

  /** Matching pipes are attached. */
  lemma MatchAttached(subs: Subs, all: set<Pipe>, data: Topic, p: Pipe)
    requires SubsOk(subs, all) && MTrie.Matches(subs, data, p)
    ensures p in all
  {}

  lemma StepGood(s: Pub, e: Event)
    requires Good(s) && Legal(s, e)
    ensures Good(Step(s, e))
  {}

  lemma {:induction false} RunGood(s: Pub, es: seq<Event>)
    requires Good(s) && LegalRun(s, es)
    ensures Good(Run(s, es))
    decreases |es|
  {
    if es != [] {
      StepGood(s, es[0]);
      RunGood(Step(s, es[0]), es[1..]);
    }
  }

  // ----- Forwarded subscriptions ----------------------------------------------------------

  /** A receiver of the events keeps a set of topics. */
  function Follow(ts: set<Topic>, b: Topic): set<Topic> {
    if IsSub(b) then ts + {b[1..]} else if IsUnsub(b) then ts - {b[1..]} else ts
  }

  function Replay(log: seq<Topic>): set<Topic>
    decreases |log|
  {
    if log == [] then {} else Follow(Replay(log[..|log| - 1]), log[|log| - 1])
  }

  lemma ReplayNext(log: seq<Topic>, b: Topic)
    ensures Replay(log + [b]) == Follow(Replay(log), b)
  {
    assert (log + [b])[..|log|] == log;
  }

  lemma {:induction false} ReplayUnsubs(log: seq<Topic>, calls: seq<Topic>, t: Topic)
    ensures t in Replay(log + Unsubs(calls)) <==> t in Replay(log) && t !in calls
    decreases |calls|
  {
    if calls == [] {
      assert log + Unsubs(calls) == log;
    } else {
      var n := |calls| - 1;
      ReplayUnsubs(log, calls[..n], t);
      assert t in calls <==> t in calls[..n] || t == calls[n];
      var b := [0] + calls[n];
      assert log + Unsubs(calls) == log + Unsubs(calls[..n]) + [b];
      ReplayNext(log + Unsubs(calls[..n]), b);
      assert b[1..] == calls[n];
    }
  }

  /** The follower knows exactly the topics that have a subscriber. */
  ghost predicate InStep(s: Pub) { Replay(s.log) == s.subs.Keys }

  /** ... with the possible exception of the empty topic. */
  ghost predicate NearlyInStep(s: Pub) {
    Replay(s.log) <= s.subs.Keys && s.subs.Keys - {[]} <= Replay(s.log)
  }

  lemma UnsubKeys(subs: Subs, t: Topic, p: Pipe)
    ensures MTrie.Without(subs, t, p).Keys == if t in subs && LastUnsub(subs, t, p) then subs.Keys - {t} else subs.Keys
  {}

  /** An unsubscription, forwarded or not, keeps the follower in step; so does a needless one. */
  lemma UnsubInStep(s: Pub, p: Pipe, b: Topic)
    requires s.xpub && IsUnsub(b)
    ensures InStep(s) ==> InStep(Receive(s, p, b))
    ensures NearlyInStep(s) ==> NearlyInStep(Receive(s, p, b))
  {
    var t := b[1..];
    var r := Receive(s, p, b);
    UnsubKeys(s.subs, t, p);
    if LastUnsub(s.subs, t, p) {
      ReplayNext(s.log, b);
      assert Replay(r.log) == Replay(s.log) - {t};
    } else {
      assert r.log == s.log;
    }
  }

  lemma SubInStep(s: Pub, p: Pipe, b: Topic)
    requires s.xpub && IsSub(b)
    ensures InStep(s) ==> InStep(Receive(s, p, b))
    ensures NearlyInStep(s) ==> NearlyInStep(Receive(s, p, b))
  {
    var t := b[1..];
    var r := Receive(s, p, b);
    assert r.subs.Keys == s.subs.Keys + {t};
    if t !in s.subs || s.verbose {
      ReplayNext(s.log, b);
      assert Replay(r.log) == Replay(s.log) + {t};
    } else {
      assert r.log == s.log;
    }
  }

  lemma GoneKeys(subs: Subs, all: set<Pipe>, p: Pipe, calls: seq<Topic>)
    requires SubsOk(subs, all) && MTrie.Reports(calls, [], subs, p)
    ensures MTrie.Unsubscribed(subs, p).Keys == subs.Keys - (set t | t in calls)
  {
    forall t: Topic ensures t in calls <==> t in subs && subs[t] - {p} == {} {
      assert t[0..] == t;
      assert t in calls <==> MTrie.LastOf(t, [], subs, p);
      assert t in subs ==> subs[t] != {};
    }
  }

  lemma GoneInStep(s: Pub, p: Pipe, calls: seq<Topic>)
    requires s.xpub && Good(s) && MTrie.Reports(calls, [], s.subs, p)
    ensures InStep(s) ==> InStep(Step(s, Gone(p, calls)))
    ensures NearlyInStep(s) ==> NearlyInStep(Step(s, Gone(p, calls)))
  {
    forall t ensures t in Replay(s.log + Unsubs(calls)) <==> t in Replay(s.log) && t !in calls {
      ReplayUnsubs(s.log, calls, t);
    }
    GoneKeys(s.subs, s.groups.all, p, calls);
  }

  lemma StepInStep(s: Pub, e: Event)
    requires s.xpub && Good(s) && Legal(s, e)
    ensures NearlyInStep(s) ==> NearlyInStep(Step(s, e))
    ensures InStep(s) && !(e.Attach? && e.all) ==> InStep(Step(s, e))
  {
    match e
    case Incoming(p, b) =>
      if IsUnsub(b) { UnsubInStep(s, p, b); }
      else if IsSub(b) { SubInStep(s, p, b); }
      else { ReplayNext(s.log, b); }
    case Gone(p, calls) => GoneInStep(s, p, calls);
    case _ =>
  }

  /** A pipe attached with an implicit subscription to everything is not announced: the follower
      stays in step exactly when someone had subscribed to everything before. */
  lemma AttachInStep(s: Pub, p: Pipe)
    requires s.xpub && InStep(s)
    ensures InStep(Step(s, Attach(p, true))) <==> [] in s.subs
  {
    var t := Step(s, Attach(p, true));
    assert t.subs.Keys == s.subs.Keys + {[]};
  }

  /** Replaying what an XPUB socket forwarded gives the topics with a live subscriber, in every run
      without implicit subscriptions, verbose or not. */
  lemma {:induction false} ForwardedIsExact(s: Pub, es: seq<Event>)
    requires s.xpub && Good(s) && LegalRun(s, es)
    requires InStep(s) && forall e :: e in es ==> !(e.Attach? && e.all)
    ensures InStep(Run(s, es))
    decreases |es|
  {
    if es != [] {
      assert es[0] in es;
      StepGood(s, es[0]);
      StepInStep(s, es[0]);
      ForwardedIsExact(Step(s, es[0]), es[1..]);
    }
  }

  /** With implicit subscriptions it is right for every topic but the empty one. */
  lemma {:induction false} ForwardedIsNearlyExact(s: Pub, es: seq<Event>)
    requires s.xpub && Good(s) && LegalRun(s, es) && NearlyInStep(s)
    ensures NearlyInStep(Run(s, es))
    decreases |es|
  {
    if es != [] {
      StepGood(s, es[0]);
      StepInStep(s, es[0]);
      ForwardedIsNearlyExact(Step(s, es[0]), es[1..]);
    }
  }

  /** The smallest run in which the follower misses a subscription. */
  lemma ImplicitSubscriptionIsMissed(p: Pipe)
    ensures var es := [Attach(p, true)];
      LegalRun(Init(true), es) && [] in Run(Init(true), es).subs && [] !in Replay(Run(Init(true), es).log)
  {
    var s := Init(true);
    var es := [Attach(p, true)];
    assert es[1..] == [];
    assert Run(s, es) == Run(Step(s, es[0]), []);
  }

  /** When not verbose, a subscription is announced, once, exactly if it is news. */
  lemma NoRepeatedNews(s: Pub, p: Pipe, b: Topic)
    requires s.xpub && !s.verbose && InStep(s) && IsSub(b)
    ensures Receive(s, p, b).log == s.log + if b[1..] !in Replay(s.log) then [b] else []
  {}

  /** An unsubscription is announced, once, exactly if it takes the last subscriber away, or there was
      none and a longer topic has one. */
  lemma UnsubNews(s: Pub, p: Pipe, b: Topic)
    requires s.xpub && InStep(s) && IsUnsub(b)
    ensures var r := Receive(s, p, b);
      r.log == s.log + if (b[1..] in Replay(s.log) && b[1..] !in r.subs) || (b[1..] !in s.subs && MTrie.IsNode(s.subs, b[1..])) then [b] else []
  {}

  /** When a pipe goes, the topics that lose their last subscriber are announced, once each, in order. */
  lemma GoneNews(s: Pub, p: Pipe, calls: seq<Topic>)
    requires s.xpub && Good(s) && InStep(s) && MTrie.Reports(calls, [], s.subs, p)
    ensures var r := Step(s, Gone(p, calls));
      && r.log == s.log + Unsubs(calls) && Increasing(calls)
      && forall t :: t in calls <==> t in Replay(s.log) && t !in r.subs
  {
    GoneKeys(s.subs, s.groups.all, p, calls);
    forall t ensures t in calls ==> t in s.subs {
      if t in calls { assert t[0..] == t && MTrie.LastOf(t, [], s.subs, p); }
    }
  }

  /** An unsubscription from a topic that nobody subscribed to is forwarded exactly when some longer
      topic has a subscriber; it does the follower no harm. */
  lemma NeedlessNews(s: Pub, p: Pipe, b: Topic)
    requires s.xpub && InStep(s) && IsUnsub(b) && b[1..] !in s.subs
    ensures var r := Receive(s, p, b);
      && r.log == s.log + (if MTrie.IsNode(s.subs, b[1..]) then [b] else [])
      && r.subs == s.subs && Replay(r.log) == Replay(s.log)
  {
    UnsubInStep(s, p, b);
  }

  // ----- Who gets what -----------------------------------------------------------------------

  /** Pipe `p` neither went away nor refused a part. */
  predicate Stays(e: Event, p: Pipe) {
    (e.Gone? ==> e.pipe != p) && (e.Send? ==> p in e.accepting)
  }

  predicate MidMessage(e: Event) { e.Send? ==> e.msgMore }

  lemma StepMarks(s: Pub, e: Event, p: Pipe)
    requires s.more && MidMessage(e)
    ensures Step(s, e).more
    ensures p in Step(s, e).groups.matching <==> p in s.groups.matching && Stays(e, p)
  {}

  lemma {:induction false} RunMarks(s: Pub, es: seq<Event>, p: Pipe)
    requires s.more && forall e :: e in es ==> MidMessage(e)
    ensures Run(s, es).more
    ensures p in Run(s, es).groups.matching <==> p in s.groups.matching && forall e :: e in es ==> Stays(e, p)
    decreases |es|
  {
    if es != [] {
      assert es[0] in es;
      StepMarks(s, es[0], p);
      RunMarks(Step(s, es[0]), es[1..], p);
      assert forall e :: e in es <==> e == es[0] || e in es[1..];
    }
  }

  /** A later part is offered to exactly the pipes that took the first part and since then neither
      went away nor refused a part: never to one attached or made writable in between. */
  lemma LaterParts(s: Pub, first: Topic, accepting: set<Pipe>, es: seq<Event>, data: Topic, p: Pipe)
    requires forall e :: e in es ==> MidMessage(e)
    ensures var t := Run(SendPart(s, first, true, accepting), es);
      p in Offer(t, data) <==> p in Offer(s, first) && p in accepting && forall e :: e in es ==> Stays(e, p)
  {
    RunMarks(SendPart(s, first, true, accepting), es, p);
  }
}
