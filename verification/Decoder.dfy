/** decoder_base_t with the states of v1_decoder_t and v2_decoder_t: an incremental decoder that is
    fed a byte stream in pieces, either through a buffer or straight into the message. */
module Decoder {
  import opened Basics
  import opened Wire
  import opened Frames

  /** The next state machine action. */
  datatype Stage = V1Size | V1Long | V1Flags | V2Flags | V2Size | V2Long | Body

  datatype Outcome = Again | Ready | Failed(error: Error)

  function Rank(s: Stage): nat {
    match s
    case V1Size => 4
    case V1Long => 3
    case V1Flags => 2
    case V2Flags => 3
    case V2Size => 2
    case V2Long => 2
    case Body => 1
  }

  /** The length field of a ZMTP 1.0 frame: how many bytes it takes, and its value. */
  function V1LengthBytes(pre: seq<byte>): nat
    requires |pre| >= 1
  {
    if pre[0] == 255 then 9 else 1
  }

  function V1LengthValue(pre: seq<byte>): nat
    requires |pre| >= 1 && |pre| >= V1LengthBytes(pre)
  {
    if pre[0] == 255 then Value(pre[1..9]) else pre[0]
  }

  /** The decoder is in a certain state after the bytes `head` of the current frame: `wanted` more take
      it to the next one. */
  ghost predicate StageOk(v: Version, lim: Limits, next: Stage, head: seq<byte>, wanted: nat, size: nat, more: bool, command: bool) {
    match next
    case V2Flags => v == V2 && head == [] && wanted == 1
    case V2Size =>
      && v == V2 && |head| == 1 && wanted == 1 && !LargeBit(head[0])
      && more == MoreBit(head[0]) && command == CommandBit(head[0])
    case V2Long =>
      && v == V2 && |head| == 1 && wanted == 8 && LargeBit(head[0])
      && more == MoreBit(head[0]) && command == CommandBit(head[0])
    case V1Size => v == V1 && head == [] && wanted == 1
    case V1Long => v == V1 && head == [255] && wanted == 8
    case V1Flags =>
      && v == V1 && |head| >= 1 && |head| == V1LengthBytes(head) && wanted == 1
      && V1LengthValue(head) == size + 1 && Fits(lim, size) && !command
    case Body => ReadHeader(v, lim, head) == Header(|head|, size, more, command) && wanted == size
  }

  /** A decoder that waits for bytes has seen no complete frame and no error. */
  lemma StageWaits(v: Version, lim: Limits, next: Stage, head: seq<byte>, filled: seq<byte>, wanted: nat,
                   size: nat, more: bool, command: bool)
    requires StageOk(v, lim, next, head, wanted, size, more, command) && |filled| < wanted
    ensures ReadFrame(v, lim, head + filled).Incomplete?
  {
    HeaderStable(v, lim, head, filled);
    if next.V1Flags? {
      assert filled == [] && head + filled == head;
      if |head| == 9 { assert head[1..9] == head[1..]; }
    }
  }

  /** With its body complete, so is the frame. */
  lemma StageDone(v: Version, lim: Limits, head: seq<byte>, body: seq<byte>, more: bool, command: bool)
    requires StageOk(v, lim, Body, head, |body|, |body|, more, command)
    ensures ReadFrame(v, lim, head + body) == Complete(Msg(more, command, body), |head + body|)
  {
    HeaderStable(v, lim, head, body);
    assert (head + body)[|head|..|head| + |body|] == body;
  }

  class Decoder {
    const v: Version
    const lim: Limits
    const bufsize: nat
    const tmpbuf: array<byte>
    var body: array<byte>
    var more: bool
    var command: bool
    var next: Stage
    var target: array<byte>
    var pos: nat
    var toRead: nat
    /** The bytes of the current frame seen so far, and those of them before the current action. */
    ghost var pre: seq<byte>
    ghost var head: seq<byte>

    ghost predicate Valid()
      reads this, tmpbuf, body, target
    {
      && Machine(lim) && tmpbuf.Length == 8 && body != tmpbuf
      && target == (if next.Body? then body else tmpbuf)
      && pos + toRead <= target.Length
      && pre == head + target[..pos]
      && StageOk(v, lim, next, head, pos + toRead, body.Length, more, command)
    }

    /** The decoder waits for bytes; it is not in error. */
    ghost predicate Live()
      reads this, tmpbuf, body, target
    {
      Valid() && toRead > 0
    }

    /** The message just decoded. */
    function Message(): Msg
      reads this, body
    {
      Msg(more, command, body[..])
    }

    constructor (v: Version, lim: Limits, bufsize: nat)
      requires Machine(lim)
      ensures Live() && pre == [] && this.v == v && this.lim == lim && this.bufsize == bufsize
      ensures fresh(tmpbuf) && fresh(body)
    {
      this.v, this.lim, this.bufsize := v, lim, bufsize;
      tmpbuf := new byte[8];
      body := new byte[0];
      more, command := false, false;
      pre := [];
      new;
      Restart();
    }

    method NextStep(buffer: array<byte>, size: nat, stage: Stage)
      modifies this`target, this`pos, this`toRead, this`next, this`head
      ensures target == buffer && pos == 0 && toRead == size && next == stage && head == pre
      ensures pre == head + target[..pos]
    {
      target, pos, toRead, next := buffer, 0, size, stage;
      head := pre;
    }

    /** At the start of a frame. */
    method Restart()
      requires Machine(lim) && tmpbuf.Length == 8 && body != tmpbuf
      modifies this`target, this`pos, this`toRead, this`next, this`head, this`pre
      ensures Live() && pre == []
    {
      pre := [];
      NextStep(tmpbuf, 1, if v.V2? then V2Flags else V1Size);
    }

    method V2FlagsReady()
      requires Valid() && toRead == 0 && next == V2Flags
      modifies this`more, this`command, this`target, this`pos, this`toRead, this`next, this`head
      ensures Valid() && pre == old(pre) && Rank(next) < Rank(old(next))
    {
      more := tmpbuf[0] % 2 == 1;
      command := (tmpbuf[0] / 4) % 2 == 1;
      assert pre[0] == target[..pos][0] == tmpbuf[0];
      if (tmpbuf[0] / 2) % 2 == 1 {
        NextStep(tmpbuf, 8, V2Long);
      } else {
        NextStep(tmpbuf, 1, V2Size);
      }
    }

    /** The size of the message is known to be within the limits. */
    method InitSize(size: nat)
      modifies this`body
      ensures fresh(body) && body.Length == size
    {
      body := new byte[size];
    }

    method V2SizeReady() returns (rc: Outcome)
      requires Valid() && toRead == 0 && next == V2Size
      modifies this`body, this`target, this`pos, this`toRead, this`next, this`head
      ensures Valid() && pre == old(pre) && (body == old(body) || fresh(body))
      ensures if rc.Again? then Rank(next) < Rank(old(next)) else rc.Failed? && ReadFrame(v, lim, pre) == Bad(rc.error)
    {
      var size := tmpbuf[0];
      assert pre[1] == target[..pos][0] == tmpbuf[0];
      if lim.max >= 0 && size > lim.max { return Failed(Emsgsize); }
      InitSize(size);
      NextStep(body, body.Length, Body);
      return Again;
    }

    method V2LongReady() returns (rc: Outcome)
      requires Valid() && toRead == 0 && next == V2Long
      modifies this`body, this`target, this`pos, this`toRead, this`next, this`head
      ensures Valid() && pre == old(pre) && (body == old(body) || fresh(body))
      ensures if rc.Again? then Rank(next) < Rank(old(next)) else rc.Failed? && ReadFrame(v, lim, pre) == Bad(rc.error)
    {
      var size := GetUint64(tmpbuf[..8]);
      GetIsValue(tmpbuf[..8]);
      assert tmpbuf[..8] == pre[1..9];
      if lim.max >= 0 && size > lim.max { return Failed(Emsgsize); }
      if size > lim.sizeMax { return Failed(Emsgsize); }
      InitSize(size);
      NextStep(body, body.Length, Body);
      return Again;
    }

    method V1SizeReady() returns (rc: Outcome)
      requires Valid() && toRead == 0 && next == V1Size
      modifies this`body, this`command, this`target, this`pos, this`toRead, this`next, this`head
      ensures Valid() && pre == old(pre) && (body == old(body) || fresh(body))
      ensures if rc.Again? then Rank(next) < Rank(old(next)) else rc.Failed? && ReadFrame(v, lim, pre) == Bad(rc.error)
    {
      assert pre[0] == target[..pos][0] == tmpbuf[0];
      if tmpbuf[0] == 0xff {
        NextStep(tmpbuf, 8, V1Long);
        return Again;
      }
      if tmpbuf[0] == 0 { return Failed(Eproto); }
      if lim.max >= 0 && tmpbuf[0] - 1 > lim.max { return Failed(Emsgsize); }
      InitSize(tmpbuf[0] - 1);
      command := false;
      NextStep(tmpbuf, 1, V1Flags);
      return Again;
    }

    method V1LongReady() returns (rc: Outcome)
      requires Valid() && toRead == 0 && next == V1Long
      modifies this`body, this`command, this`target, this`pos, this`toRead, this`next, this`head
      ensures Valid() && pre == old(pre) && (body == old(body) || fresh(body))
      ensures if rc.Again? then Rank(next) < Rank(old(next)) else rc.Failed? && ReadFrame(v, lim, pre) == Bad(rc.error)
    {
      var length := GetUint64(tmpbuf[..8]);
      GetIsValue(tmpbuf[..8]);
      assert tmpbuf[..8] == pre[1..9];
      if length == 0 { return Failed(Eproto); }
      if lim.max >= 0 && length - 1 > lim.max { return Failed(Emsgsize); }
      if length - 1 > lim.sizeMax { return Failed(Emsgsize); }
      InitSize(length - 1);
      command := false;
      NextStep(tmpbuf, 1, V1Flags);
      return Again;
    }

    method V1FlagsReady()
      requires Valid() && toRead == 0 && next == V1Flags
      modifies this`more, this`target, this`pos, this`toRead, this`next, this`head
      ensures Valid() && pre == old(pre) && Rank(next) < Rank(old(next))
    {
      assert pre[|head|] == target[..pos][0] == tmpbuf[0] && pre[0] == head[0];
      if |head| == 9 { assert pre[1..9] == head[1..9]; }
      more := tmpbuf[0] % 2 == 1;
      NextStep(body, body.Length, Body);
    }

    method MessageReady()
      requires Valid() && toRead == 0 && next == Body
      modifies this`target, this`pos, this`toRead, this`next, this`head, this`pre
      ensures Live() && pre == [] && ReadFrame(v, lim, old(pre)) == Complete(Message(), |old(pre)|)
    {
      assert target[..pos] == body[..];
      StageDone(v, lim, head, body[..], more, command);
      Restart();
    }

    /** Runs the next action. */
    method Act() returns (rc: Outcome)
      requires Valid() && toRead == 0
      modifies this
      ensures Valid() && (body == old(body) || fresh(body))
      ensures rc.Again? ==> pre == old(pre) && Rank(next) < Rank(old(next))
      ensures rc.Ready? ==> Live() && pre == [] && ReadFrame(v, lim, old(pre)) == Complete(Message(), |old(pre)|)
      ensures rc.Failed? ==> ReadFrame(v, lim, old(pre)) == Bad(rc.error)
    {
      match next
      case V2Flags => V2FlagsReady(); rc := Again;
      case V2Size => rc := V2SizeReady();
      case V2Long => rc := V2LongReady();
      case V1Size => rc := V1SizeReady();
      case V1Long => rc := V1LongReady();
      case V1Flags => V1FlagsReady(); rc := Again;
      case Body => MessageReady(); rc := Ready;
    }

    /** Runs actions until one of them wants bytes, completes a message or fails. */
    method Advance() returns (rc: Outcome)
      requires Valid()
      modifies this
      ensures Valid() && (body == old(body) || fresh(body))
      ensures rc.Again? ==> Live() && pre == old(pre)
      ensures rc.Ready? ==> Live() && pre == [] && ReadFrame(v, lim, old(pre)) == Complete(Message(), |old(pre)|)
      ensures rc.Failed? ==> ReadFrame(v, lim, old(pre)) == Bad(rc.error)
    {
      while toRead == 0
        invariant Valid() && pre == old(pre) && (body == old(body) || fresh(body))
        decreases Rank(next)
      {
        rc := Act();
        if !rc.Again? { return; }
      }
      return Again;
    }

    /** Puts bytes where the decoder reads to, without telling it. */
    method Fill(d: seq<byte>)
      requires Valid() && |d| <= toRead
      modifies target
      ensures target[..pos] == old(target[..pos]) && target[pos..pos + |d|] == d
      ensures Valid()
    {
      forall i | 0 <= i < |d| { target[pos + i] := d[i]; }
      assert target[..pos] == old(target[..pos]);
    }

    /** Accounts for `n` bytes already in place. */
    method Accept(n: nat)
      requires Valid() && n <= toRead
      modifies this`pos, this`toRead, this`pre
      ensures Valid() && pre == old(pre) + old(target[pos..pos + n]) && toRead == old(toRead) - n
    {
      ghost var d, f := target[pos..pos + n], target[..pos];
      Regroup(head, f, d);
      assert target[..pos + n] == f + d;
      pre := pre + d;
      pos, toRead := pos + n, toRead - n;
    }

    /** What one call of the decoder does with the bytes `seen` of the frame so far. */
    ghost predicate Result(seen: seq<byte>, rc: Outcome)
      reads this, tmpbuf, body, target
    {
      && Valid() && Decoded(v, lim, seen, rc)
      && (rc.Again? ==> Live() && pre == seen)
      && (rc.Ready? ==> Live() && pre == [] && ReadFrame(v, lim, seen).msg == Message())
    }

    /** Runs the state machine on the bytes taken in. */
    method Process() returns (rc: Outcome)
      requires Valid()
      modifies this
      ensures Result(old(pre), rc) && (body == old(body) || fresh(body))
    {
      rc := Advance();
      if rc.Again? { Waits(); }
    }

    /** Decodes bytes that the caller put in place: nothing is copied. */
    method DecodeInPlace(size: nat) returns (rc: Outcome)
      requires Live() && size <= toRead
      modifies this
      ensures Result(old(pre) + old(target[pos..pos + size]), rc) && (body == old(body) || fresh(body))
    {
      Accept(size);
      rc := Process();
    }

    /** The caller reads straight into place, then decodes. */
    method FillAndDecode(d: seq<byte>) returns (rc: Outcome)
      requires Live() && |d| <= toRead
      modifies this, target
      ensures Result(old(pre) + d, rc) && (body == old(body) || fresh(body))
    {
      Fill(d);
      ghost var seen := pre + d;
      assert target[pos..pos + |d|] == d;
      rc := DecodeInPlace(|d|);
      assert Result(seen, rc);
    }

    /** Copies as much of `data` as one state wants. */
    method CopyIn(d: seq<byte>)
      requires Valid() && |d| <= toRead
      modifies this`pos, this`toRead, this`pre, target
      ensures Valid() && pre == old(pre) + d && toRead == old(toRead) - |d|
    {
      Fill(d);
      Accept(|d|);
    }

    /** Decodes a buffer up to the end of a message. */
    method Decode(data: seq<byte>) returns (rc: Outcome, used: nat)
      requires Live()
      modifies this, tmpbuf, body
      ensures used <= |data| && (rc.Again? ==> used == |data|) && (data != [] ==> used > 0)
      ensures Result(old(pre) + data[..used], rc) && (body == old(body) || fresh(body))
    {
      used := 0;
      ghost var base := pre;
      assert base + data[..used] == pre;
      while used < |data|
        invariant used <= |data| && (body == old(body) || fresh(body))
        invariant Live() && pre == base + data[..used]
        decreases |data| - used
      {
        rc, used := DecodeSome(data, used, base);
        if !rc.Again? { return; }
      }
      rc := Again;
      Waits();
    }

    /** Decodes no more than one state wants. */
    method DecodeSome(data: seq<byte>, done: nat, ghost base: seq<byte>) returns (rc: Outcome, used: nat)
      requires Live() && done < |data| && pre == base + data[..done]
      modifies this, tmpbuf, body
      ensures done < used <= |data|
      ensures Result(base + data[..used], rc) && (body == old(body) || fresh(body))
    {
      var n := if toRead < |data| - done then toRead else |data| - done;
      used := done + n;
      assert base + data[..done] + data[done..used] == base + data[..used];
      CopyIn(data[done..used]);
      rc := Process();
    }

    lemma Waits()
      requires Live()
      ensures ReadFrame(v, lim, pre).Incomplete?
    {
      StageWaits(v, lim, next, head, target[..pos], pos + toRead, body.Length, more, command);
    }

    /** How many bytes the caller may bring, and whether straight into place. */
    method GetBuffer() returns (inPlace: bool, size: nat)
      requires Live()
      ensures inPlace <==> toRead >= bufsize
      ensures size == if inPlace then toRead else bufsize
    {
      if toRead >= bufsize { return true, toRead; }
      return false, bufsize;
    }
  }

  /** The outcome of decoding is that of reading the bytes seen of the frame in one go. */
  ghost predicate Decoded(v: Version, lim: Limits, seen: seq<byte>, rc: Outcome) {
    match rc
    case Again => ReadFrame(v, lim, seen).Incomplete?
    case Ready => ReadFrame(v, lim, seen).Complete? && ReadFrame(v, lim, seen).length == |seen|
    case Failed(e) => ReadFrame(v, lim, seen) == Bad(e)
  }
}
