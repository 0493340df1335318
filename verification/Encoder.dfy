/** encoder_base_t with the states of v1_encoder_t and v2_encoder_t: turns messages into a byte
    stream, handed out in buffers of any size or straight from the message. */
module Encoder {
  import opened Basics
  import opened Wire
  import opened Frames

  datatype Stage = MessageReady | SizeReady

  class Encoder {
    const v: Version
    const bufsize: nat
    const tmpbuf: array<byte>
    var inProgress: Option<Msg>
    var toWrite: seq<byte>
    var next: Stage
    var newMsg: bool

    ghost predicate Valid()
      reads this
    {
      && tmpbuf.Length == 10
      && newMsg == next.MessageReady?
      && (inProgress.None? ==> toWrite == [] && newMsg)
      && (inProgress.Some? ==> |inProgress.value.body| + 1 < TWO_TO_64)
    }

    /** What is still to come of the message in progress. */
    ghost function Pending(): seq<byte>
      reads this
    {
      if inProgress.None? then [] else toWrite + if newMsg then [] else inProgress.value.body
    }

    constructor (v: Version, bufsize: nat)
      ensures Valid() && inProgress.None? && this.v == v && this.bufsize == bufsize && fresh(tmpbuf)
    {
      this.v, this.bufsize := v, bufsize;
      tmpbuf := new byte[10];
      inProgress, toWrite, next, newMsg := None, [], MessageReady, true;
    }

    method NextStep(bytes: seq<byte>, stage: Stage, newMsgFlag: bool)
      modifies this`toWrite, this`next, this`newMsg
      ensures toWrite == bytes && next == stage && newMsg == newMsgFlag
    {
      toWrite, next, newMsg := bytes, stage, newMsgFlag;
    }

    method PutUint64At(at: nat, value: uint64)
      requires at + 8 <= tmpbuf.Length
      modifies tmpbuf
      ensures tmpbuf[at..at + 8] == Digits8(value)
      ensures forall k :: 0 <= k < tmpbuf.Length && !(at <= k < at + 8) ==> tmpbuf[k] == old(tmpbuf[k])
    {
      var d := PutUint64(value);
      PutIsDigits(value);
      forall k | 0 <= k < 8 { tmpbuf[at + k] := d[k]; }
      assert tmpbuf[at..at + 8] == d;
    }

    /** Writes flags and length. */
    method V2MessageReady()
      requires Valid() && v.V2? && inProgress.Some? && next.MessageReady? && toWrite == []
      modifies this`toWrite, this`next, this`newMsg, tmpbuf
      ensures Valid() && !newMsg && toWrite == WriteHeader(v, inProgress.value)
    {
      var m := inProgress.value;
      var flags: byte := 0;
      if m.more { flags := flags + 1; }
      if |m.body| > 255 { flags := flags + 2; }
      if m.command { flags := flags + 4; }
      tmpbuf[0] := flags;
      if |m.body| > 255 {
        PutUint64At(1, |m.body|);
        assert tmpbuf[..9] == [tmpbuf[0]] + tmpbuf[1..9];
        NextStep(tmpbuf[..9], SizeReady, false);
      } else {
        tmpbuf[1] := |m.body|;
        NextStep(tmpbuf[..2], SizeReady, false);
      }
    }

    method V1MessageReady()
      requires Valid() && v.V1? && inProgress.Some? && next.MessageReady? && toWrite == []
      modifies this`toWrite, this`next, this`newMsg, tmpbuf
      ensures Valid() && !newMsg && toWrite == WriteHeader(v, inProgress.value)
    {
      var m := inProgress.value;
      var size := |m.body| + 1;
      var more: byte := if m.more then 1 else 0;
      if size < 255 {
        tmpbuf[0], tmpbuf[1] := size, more;
        NextStep(tmpbuf[..2], SizeReady, false);
      } else {
        tmpbuf[0] := 0xff;
        PutUint64At(1, size);
        tmpbuf[9] := more;
        assert tmpbuf[..10] == [tmpbuf[0]] + tmpbuf[1..9] + [tmpbuf[9]];
        NextStep(tmpbuf[..10], SizeReady, false);
      }
    }

    /** Moves on to the body. */
    method BodyReady()
      requires Valid() && inProgress.Some? && next.SizeReady? && toWrite == []
      modifies this`toWrite, this`next, this`newMsg
      ensures Valid() && newMsg && toWrite == inProgress.value.body && Pending() == old(Pending())
    {
      NextStep(inProgress.value.body, MessageReady, true);
    }

    /** Lets go of the message. */
    method Finish()
      requires Valid() && toWrite == [] && newMsg
      modifies this`inProgress
      ensures Valid() && inProgress.None? && Pending() == old(Pending())
    {
      inProgress := None;
    }

    /** Hands out `n` bytes behind those of `chunk`. */
    method CopyOut(n: nat, chunk: seq<byte>) returns (longer: seq<byte>)
      requires Valid() && inProgress.Some? && n <= |toWrite|
      modifies this`toWrite
      ensures Valid() && longer + Pending() == chunk + old(Pending()) && |longer| == |chunk| + n
      ensures |Pending()| == |old(Pending())| - n
    {
      var part := toWrite[..n];
      toWrite := toWrite[n..];
      Regroup(part, toWrite, if newMsg then [] else inProgress.value.body);
      Regroup(chunk, part, Pending());
      longer := chunk + part;
    }

    /** Starts on the next message; the one before must be finished. */
    method LoadMsg(m: Msg)
      requires Valid() && inProgress.None? && |m.body| + 1 < TWO_TO_64
      modifies this, tmpbuf
      ensures Valid() && inProgress == Some(m) && Pending() == WriteFrame(v, m)
    {
      inProgress := Some(m);
      if v.V2? { V2MessageReady(); } else { V1MessageReady(); }
    }

    /** Hands out the next bytes of the message in progress, in a buffer of the caller's of the size
        given, or in one of the encoder's own. */
    method Encode(buffer: Option<nat>) returns (chunk: seq<byte>)
      requires Valid()
      modifies this
      ensures Valid() && chunk + Pending() == old(Pending())
      ensures var size := if buffer.Some? then buffer.value else bufsize;
        && (|chunk| < size ==> inProgress.None?)
        && (old(Pending()) != [] && size > 0 ==> chunk != [])
        && (buffer.Some? ==> |chunk| <= size)
    {
      var size := if buffer.Some? then buffer.value else bufsize;
      chunk := [];
      if inProgress.None? { return; }
      ghost var all := Pending();
      while |chunk| < size
        invariant Valid() && inProgress.Some? && |chunk| <= size
        invariant chunk + Pending() == all
        decreases |Pending()|, !newMsg
      {
        if toWrite == [] {
          if newMsg {
            Finish();
            break;
          }
          BodyReady();
        }
        if chunk == [] && buffer.None? && |toWrite| >= size {
          chunk := CopyOut(|toWrite|, []);
          return;
        }
        chunk := CopyOut(if |toWrite| < size - |chunk| then |toWrite| else size - |chunk|, chunk);
      }
    }
  }

  /** One batch for the network: what is left of the message in progress, then queued messages until
      the batch is full. */
  method OutEvent(enc: Encoder, queue: seq<Msg>) returns (batch: seq<byte>, taken: nat)
    requires enc.Valid() && enc.bufsize > 0 && Writable(queue)
    modifies enc, enc.tmpbuf
    ensures enc.Valid() && taken <= |queue|
    ensures batch + enc.Pending() == old(enc.Pending()) + WriteAll(enc.v, queue[..taken])
    ensures batch == [] ==> enc.Pending() == [] && queue == []
  {
    taken := 0;
    var own := enc.inProgress.None?;
    ghost var p := enc.Pending();
    batch := enc.Encode(None);
    NoneYet(enc.v, queue, p);
    while |batch| < enc.bufsize && taken < |queue|
      invariant taken <= |queue| && enc.Valid()
      invariant |batch| < enc.bufsize ==> enc.inProgress.None?
      invariant batch + enc.Pending() == p + WriteAll(enc.v, queue[..taken])
      invariant batch == [] ==> enc.Pending() == [] && taken == 0
    {
      assert queue[taken] in queue;
      var more := LoadAndEncode(enc, queue[taken], if own && taken == 0 then None else Some(enc.bufsize - |batch|));
      assert |more| > 0;
      OneMore(enc.v, queue, taken, p, batch, more, enc.Pending());
      batch := batch + more;
      taken := taken + 1;
    }
  }

  /** The engine loads a message only when the encoder is free, and gets bytes for it at once. */
  method LoadAndEncode(enc: Encoder, m: Msg, buffer: Option<nat>) returns (more: seq<byte>)
    requires enc.Valid() && enc.inProgress.None? && |m.body| + 1 < TWO_TO_64
    requires (if buffer.Some? then buffer.value else enc.bufsize) > 0
    modifies enc, enc.tmpbuf
    ensures enc.Valid() && more + enc.Pending() == WriteFrame(enc.v, m) && more != []
    ensures |more| < (if buffer.Some? then buffer.value else enc.bufsize) ==> enc.inProgress.None?
  {
    enc.LoadMsg(m);
    more := enc.Encode(buffer);
  }

  lemma NoneYet(v: Version, queue: seq<Msg>, p: seq<byte>)
    ensures p + WriteAll(v, queue[..0]) == p
  {
    assert WriteAll(v, queue[..0]) == [];
  }

  lemma OneMore(v: Version, queue: seq<Msg>, k: nat, p: seq<byte>, batch: seq<byte>, more: seq<byte>, q: seq<byte>)
    requires k < |queue| && batch + [] == p + WriteAll(v, queue[..k]) && more + q == WriteFrame(v, queue[k])
    ensures batch + more + q == p + WriteAll(v, queue[..k + 1])
  {
    WriteNext(v, queue, k);
    Regroup(batch, more, q);
    assert batch + [] == batch;
    Regroup(p, WriteAll(v, queue[..k]), WriteFrame(v, queue[k]));
  }

  /** Batches until everything is out. */
  method Transmit(enc: Encoder, queue: seq<Msg>) returns (stream: seq<byte>)
    requires enc.Valid() && enc.inProgress.None? && enc.bufsize > 0 && Writable(queue)
    modifies enc, enc.tmpbuf
    ensures enc.Valid() && stream == WriteAll(enc.v, queue)
  {
    stream := [];
    var done := 0;
    NoneYet(enc.v, queue, []);
    while true
      invariant done <= |queue| && enc.Valid()
      invariant stream + enc.Pending() == WriteAll(enc.v, queue[..done])
      decreases |queue| - done, |enc.Pending()|
    {
      var batch, taken := SendBatch(enc, queue, done, stream);
      stream := stream + batch;
      done := done + taken;
      if batch == [] { break; }
    }
  }

  /** One batch after the bytes of `stream`. */
  method SendBatch(enc: Encoder, queue: seq<Msg>, done: nat, ghost stream: seq<byte>)
    returns (batch: seq<byte>, taken: nat)
    requires enc.Valid() && enc.bufsize > 0 && Writable(queue) && done <= |queue|
    requires stream + enc.Pending() == WriteAll(enc.v, queue[..done])
    modifies enc, enc.tmpbuf
    ensures enc.Valid() && done + taken <= |queue|
    ensures stream + batch + enc.Pending() == WriteAll(enc.v, queue[..done + taken])
    ensures batch != [] && taken == 0 ==> |enc.Pending()| < |old(enc.Pending())|
    ensures batch == [] ==> stream + batch == WriteAll(enc.v, queue)
  {
    ghost var p := enc.Pending();
    batch, taken := OutEvent(enc, queue[done..]);
    Sent(enc.v, queue, done, done + taken, stream, p, batch, enc.Pending());
    if batch == [] {
      assert queue[..done + taken] == queue;
      assert stream + batch + [] == stream + batch;
    }
  }

  lemma Sent(v: Version, queue: seq<Msg>, i: nat, j: nat, stream: seq<byte>, p: seq<byte>, batch: seq<byte>, q: seq<byte>)
    requires i <= j <= |queue| && stream + p == WriteAll(v, queue[..i])
    requires batch + q == p + WriteAll(v, queue[i..][..j - i])
    ensures stream + batch + q == WriteAll(v, queue[..j])
    ensures i == j ==> |batch| + |q| == |p|
  {
    assert queue[..j] == queue[..i] + queue[i..][..j - i];
    JoinAppend(WriterFor(v), queue[..i], queue[i..][..j - i]);
    Regroup(stream, batch, q);
    Regroup(stream, p, WriteAll(v, queue[i..][..j - i]));
  }
}
