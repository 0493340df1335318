/** own_t: one object of the ownership tree.  The value-level handlers, and the
    object itself as a class proved against them. */
module Own {

  type Id = nat

  /** The fields of own_t.  `owned` are the children not asked to terminate yet. */
  datatype Local = Local(terminating: bool, sent: nat, processed: nat, owned: set<Id>, acks: nat)

  const NEW_LOCAL := Local(false, 0, 0, {}, 0)

  /** A handler's new fields and the children it sends `term` to. */
  datatype Effect = Effect(o: Local, terms: set<Id>)

  /** A termination request of an owned child that was not asked yet is passed on. */
  function ProcessTermReq(o: Local, c: Id): Effect {
    if o.terminating || c !in o.owned then Effect(o, {})
    else Effect(o.(owned := o.owned - {c}, acks := o.acks + 1), {c})
  }

  /** A child that arrives while shutting down is asked to terminate at once. */
  function ProcessOwn(o: Local, c: Id): Effect {
    if o.terminating then Effect(o.(acks := o.acks + 1), {c})
    else Effect(o.(owned := o.owned + {c}), {})
  }

  function ProcessTerm(o: Local): Effect {
    Effect(o.(acks := o.acks + |o.owned|, owned := {}, terminating := true), o.owned)
  }

  function ProcessSeqnum(o: Local): Local { o.(processed := o.processed + 1) }

  function UnregisterTermAck(o: Local): Local
    requires o.acks > 0
  {
    o.(acks := o.acks - 1)
  }

  /** check_term_acks: may the object be deallocated? */
  predicate Finished(o: Local) { o.terminating && o.processed == o.sent && o.acks == 0 }

  datatype Sent = SentTerm(child: Id) | SentTermAck | SentTermReq

  class Object {
    const hasOwner: bool
    var terminating: bool
    var sentSeqnum: nat
    var processedSeqnum: nat
    var owned: set<Id>
    var termAcks: nat
    var sent: seq<Sent>
    var destroyed: bool

    ghost function Look(): Local
      reads this
    {
      Local(terminating, sentSeqnum, processedSeqnum, owned, termAcks)
    }

    constructor (hasOwner: bool)
      ensures Look() == NEW_LOCAL && !destroyed && sent == [] && this.hasOwner == hasOwner
    {
      this.hasOwner := hasOwner;
      terminating, sentSeqnum, processedSeqnum, owned, termAcks := false, 0, 0, {}, 0;
      sent, destroyed := [], false;
    }

    method IncSeqnum()
      modifies this`sentSeqnum
      ensures Look() == old(Look()).(sent := old(sentSeqnum) + 1)
    {
      sentSeqnum := sentSeqnum + 1;
    }

    /** Deallocates exactly when finished; the owner hears of it. */
    method CheckTermAcks()
      requires !destroyed && (Finished(Look()) ==> owned == {})
      modifies this`sent, this`destroyed
      ensures destroyed <==> Finished(Look())
      ensures sent == old(sent) + if destroyed && hasOwner then [SentTermAck] else []
    {
      if terminating && processedSeqnum == sentSeqnum && termAcks == 0 {
        assert owned == {};
        if hasOwner { sent := sent + [SentTermAck]; }
        destroyed := true;
      }
    }

    method HandleTermReq(c: Id)
      requires !destroyed
      modifies this`owned, this`termAcks, this`sent
      ensures Look() == ProcessTermReq(old(Look()), c).o
      ensures if !terminating && c in old(owned)
              then owned == old(owned) - {c} && termAcks == old(termAcks) + 1 && sent == old(sent) + [SentTerm(c)]
              else unchanged(this)
      ensures sent == old(sent) + if c in ProcessTermReq(old(Look()), c).terms then [SentTerm(c)] else []
    {
      if terminating { return; }
      if c !in owned { return; }
      owned := owned - {c};
      termAcks := termAcks + 1;
      sent := sent + [SentTerm(c)];
    }

    /** The own command: take the child, then count the command. */
    method HandleOwn(c: Id)
      requires !destroyed
      requires terminating ==> owned == {}
      modifies this
      ensures Look() == ProcessSeqnum(ProcessOwn(old(Look()), c).o)
      ensures destroyed <==> Finished(Look())
      ensures sent == old(sent) + (if old(terminating) then [SentTerm(c)] else [])
                                + if destroyed && hasOwner then [SentTermAck] else []
    {
      if terminating {
        termAcks := termAcks + 1;
        sent := sent + [SentTerm(c)];
      } else {
        owned := owned + {c};
      }
      processedSeqnum := processedSeqnum + 1;
      CheckTermAcks();
    }

    /** Sends `term` to every owned child, in some order, and starts waiting for them. */
    method HandleTerm()
      requires !destroyed && !terminating
      modifies this
      ensures Look() == ProcessTerm(old(Look())).o
      ensures destroyed <==> Finished(Look())
      ensures old(sent) <= sent
      ensures forall c :: SentTerm(c) in sent[|old(sent)|..] <==> c in old(owned)
      ensures |sent| == |old(sent)| + |old(owned)| + if destroyed && hasOwner then 1 else 0
    {
      var todo := owned;
      while todo != {}
        invariant todo <= owned == old(owned) && !terminating && termAcks == old(termAcks) && !destroyed
        invariant sentSeqnum == old(sentSeqnum) && processedSeqnum == old(processedSeqnum)
        invariant old(sent) <= sent && |sent| == |old(sent)| + |owned| - |todo|
        invariant forall c :: SentTerm(c) in sent[|old(sent)|..] <==> c in owned - todo
        decreases |todo|
      {
        var c :| c in todo;
        ghost var was := sent[|old(sent)|..];
        sent := sent + [SentTerm(c)];
        assert sent[|old(sent)|..] == was + [SentTerm(c)];
        todo := todo - {c};
      }
      termAcks := termAcks + |owned|;
      owned := {};
      terminating := true;
      ghost var was := sent[|old(sent)|..];
      CheckTermAcks();
      assert sent[|old(sent)|..] == was || sent[|old(sent)|..] == was + [SentTermAck];
    }

    method HandleTermAck()
      requires !destroyed && termAcks > 0
      requires terminating ==> owned == {}
      modifies this
      ensures Look() == UnregisterTermAck(old(Look()))
      ensures destroyed <==> Finished(Look())
      ensures sent == old(sent) + if destroyed && hasOwner then [SentTermAck] else []
    {
      assert termAcks > 0;
      termAcks := termAcks - 1;
      CheckTermAcks();
    }

    /** A counted command was delivered. */
    method HandleSeqnum()
      requires !destroyed
      requires terminating ==> owned == {}
      modifies this
      ensures Look() == ProcessSeqnum(old(Look()))
      ensures destroyed <==> Finished(Look())
      ensures sent == old(sent) + if destroyed && hasOwner then [SentTermAck] else []
    {
      processedSeqnum := processedSeqnum + 1;
      CheckTermAcks();
    }

    method RegisterTermAcks(n: nat)
      modifies this`termAcks
      ensures Look() == old(Look()).(acks := old(termAcks) + n)
    {
      termAcks := termAcks + n;
    }

    /** The root terminates itself; any other object asks its owner. */
    method Terminate()
      requires !destroyed
      modifies this
      ensures old(terminating) ==> unchanged(this)
      ensures !old(terminating) && hasOwner ==> Look() == old(Look()) && sent == old(sent) + [SentTermReq] && !destroyed
      ensures !old(terminating) && !hasOwner ==> Look() == ProcessTerm(old(Look())).o && (destroyed <==> Finished(Look()))
      ensures !old(terminating) && !hasOwner ==>
        && old(sent) <= sent && |sent| == |old(sent)| + |old(owned)|
        && forall c :: SentTerm(c) in sent[|old(sent)|..] <==> c in old(owned)
    {
      if terminating { return; }
      if !hasOwner {
        HandleTerm();
        return;
      }
      sent := sent + [SentTermReq];
    }
  }
}
