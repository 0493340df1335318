/** The ownership tree: unboundedly many own_t objects, each with a FIFO inbox. */
module OwnTree {
  import opened Basics
  import opened Own

  /** `Counted` stands for plug, attach, bind and inproc_connected: the commands that,
      like own, are announced by inc_seqnum.  term_ack carries its sender for the record. */
  datatype Cmd = Counted | OwnCmd(child: Id) | TermReq(child: Id) | Term | TermAck(child: Id)

  /** How far the shutdown of a child has come, seen from its owner. */
  datatype Phase = Root | OwnSent | Owned | TermSent | Closing | Acked | Done

  /** An object with what the run remembers about it: `wait` are the children whose
      term_ack is outstanding, `credits` the counted commands announced but not sent yet, `ext` the
      outside events it waits for.  `deferred` is an object that took `term` but postpones it. */
  datatype Rec = Rec(
    o: Local, owner: Option<Id>, inbox: seq<Cmd>, dead: bool, deferred: bool, registered: bool,
    phase: Phase, wait: set<Id>, credits: nat, ext: nat)

  type State = map<Id, Rec>

  datatype Event =
    | NewRoot(i: Id)
    | Launch(i: Id, c: Id, extra: nat)
    | Bind(i: Id)
    | Announce(src: Id, dst: Id)
    | SendCounted(dst: Id)
    | AskTerm(i: Id)
    | TermChild(i: Id, c: Id)
    | Register(i: Id, n: nat)
    | Unregister(i: Id)
    | Proceed(i: Id)
    | Deliver(i: Id, postpone: bool)

  /** Fault: a failed assertion, or a command sent to or handled by a deallocated object. */
  datatype Step = Go(s: State) | Fault

  predicate Alive(s: State, i: Id) { i in s && !s[i].dead }

  function Push(r: Rec, c: Cmd): Rec { r.(inbox := r.inbox + [c]) }

  // ---- the pieces of a step ----

  /** `term` goes out to the children in `cs`. */
  function SendTerms(s: State, cs: set<Id>): State {
    map i | i in s :: if i in cs then Push(s[i], Term).(phase := TermSent) else s[i]
  }

  function SetLocal(s: State, i: Id, o: Local): State
    requires i in s
  {
    s[i := s[i].(o := o)]
  }

  /** Children in `cs` are asked to terminate by `i`, whose fields become those of `e`. */
  function Ask(s: State, i: Id, e: Effect): Step
    requires i in s
  {
    if exists c :: c in e.terms && !Alive(s, c) then Fault
    else
      var t := SendTerms(s, e.terms);
      Go(t[i := t[i].(o := e.o, wait := t[i].wait + e.terms)])
  }

  /** check_term_acks: deallocate a finished object and tell its owner. */
  function Check(s: State, i: Id): Step
    requires i in s
  {
    if !Finished(s[i].o) then Go(s)
    else if s[i].o.owned != {} then Fault
    else
      match s[i].owner
      case None => Go(s[i := s[i].(dead := true, registered := false)])
      case Some(p) =>
        if !Alive(s, p) then Fault
        else
          var t := s[i := s[i].(dead := true, registered := false, phase := Acked)];
          Go(t[p := Push(t[p], TermAck(i))])
  }

  function Then(r: Step, i: Id): Step {
    if r.Go? && i in r.s then Check(r.s, i) else r
  }

  /** own_t::process_term. */
  function StartTerm(s: State, i: Id): Step
    requires i in s
  {
    if s[i].o.terminating then Fault
    else Ask(s[i := s[i].(deferred := false, registered := false)], i, ProcessTerm(s[i].o))
  }

  function Pop(s: State, i: Id): State
    requires i in s && s[i].inbox != []
  {
    s[i := s[i].(inbox := s[i].inbox[1..])]
  }

  function Count(s: State, i: Id): State
    requires i in s
  {
    SetLocal(s, i, ProcessSeqnum(s[i].o))
  }

  /** Handle the command `c`, already taken from the inbox of `i`. */
  function Handle(s: State, i: Id, c: Cmd, postpone: bool): Step
    requires i in s
  {
    match c
    case Counted => Then(Go(Count(s, i)), i)
    case OwnCmd(x) =>
      if x !in s then Fault
      else
        var t := if s[i].o.terminating then s else s[x := s[x].(phase := Owned)];
        var r := Ask(t, i, ProcessOwn(t[i].o, x));
        if r.Fault? then Fault else if i !in r.s then Fault else Then(Go(Count(r.s, i)), i)
    case TermReq(x) => Ask(s, i, ProcessTermReq(s[i].o, x))
    case Term =>
      if s[i].deferred then Fault
      else
        var t := s[i := s[i].(phase := Closing)];
        if postpone then (if s[i].o.terminating then Fault else Go(t[i := t[i].(deferred := true)]))
        else Then(StartTerm(t, i), i)
    case TermAck(x) =>
      if s[i].o.acks == 0 || x !in s then Fault
      else
        var t := s[x := s[x].(phase := Done)];
        Then(Go(t[i := t[i].(o := UnregisterTermAck(t[i].o), wait := t[i].wait - {x})]), i)
  }

  /** May `src` announce a counted command to `dst`?  An object may address itself and its
      owner; anybody may address an object found in the endpoint registry. */
  predicate MayAnnounce(s: State, src: Id, dst: Id) {
    && Alive(s, src) && dst in s
    && (src == dst || s[src].owner == Some(dst) || s[dst].registered)
  }

  const NEW_REC := Rec(NEW_LOCAL, None, [], false, false, false, Root, {}, 0, 0)

  function Next(s: State, ev: Event): Step {
    match ev
    case NewRoot(i) => if i in s then Go(s) else Go(s[i := NEW_REC])
    case Launch(i, c, extra) =>
      if !Alive(s, i) || c in s then Go(s)
      else
        var child := NEW_REC.(o := NEW_LOCAL.(sent := extra + 1), owner := Some(i), inbox := [Counted],
                             phase := OwnSent, credits := extra);
        Go(s[c := child][i := Push(s[i].(o := s[i].o.(sent := s[i].o.sent + 1)), OwnCmd(c))])
    case Bind(i) =>
      if Alive(s, i) && !s[i].o.terminating then Go(s[i := s[i].(registered := true)]) else Go(s)
    case Announce(src, dst) =>
      if !MayAnnounce(s, src, dst) then Go(s)
      else if s[dst].dead then Fault
      else Go(s[dst := s[dst].(o := s[dst].o.(sent := s[dst].o.sent + 1), credits := s[dst].credits + 1)])
    case SendCounted(dst) =>
      if dst !in s || s[dst].credits == 0 then Go(s)
      else if s[dst].dead then Fault
      else Go(s[dst := Push(s[dst], Counted).(credits := s[dst].credits - 1)])
    case AskTerm(i) =>
      if !Alive(s, i) || s[i].o.terminating then Go(s)
      else
        (match s[i].owner
         case None => Then(StartTerm(s, i), i)
         case Some(p) => if !Alive(s, p) then Fault else Go(s[p := Push(s[p], TermReq(i))]))
    case TermChild(i, c) => if Alive(s, i) then Ask(s, i, ProcessTermReq(s[i].o, c)) else Go(s)
    case Register(i, n) =>
      if Alive(s, i) then Go(s[i := s[i].(o := s[i].o.(acks := s[i].o.acks + n), ext := s[i].ext + n)]) else Go(s)
    case Unregister(i) =>
      if !Alive(s, i) || s[i].ext == 0 then Go(s)
      else if s[i].o.acks == 0 then Fault
      else Then(Go(s[i := s[i].(o := UnregisterTermAck(s[i].o), ext := s[i].ext - 1)]), i)
    case Proceed(i) =>
      if Alive(s, i) && s[i].deferred then Then(StartTerm(s, i), i) else Go(s)
    case Deliver(i, postpone) =>
      if i !in s || s[i].inbox == [] then Go(s)
      else if s[i].dead then Fault
      else Handle(Pop(s, i), i, s[i].inbox[0], postpone)
  }

  function Run(s: State, evs: seq<Event>): Step
    decreases |evs|
  {
    if evs == [] then Go(s)
    else
      var r := Next(s, evs[0]);
      if r.Fault? then Fault else Run(r.s, evs[1..])
  }
}
