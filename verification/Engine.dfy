/** The receiving half of stream_engine_t: whatever sizes the reads from the network have, the
    decoder delivers the messages of the stream as a whole. */
module Engine {
  import opened Basics
  import opened Frames
  import opened Decoder

  /** A frame at the front of a stream. */
  lemma FrameInFront(read: Reader, seen: seq<byte>, rest: seq<byte>)
    requires Steady(read) && seen != []
    requires read(seen).Complete? && read(seen).length == |seen|
    ensures ReadAll(read, seen + rest) == After([read(seen).msg], ReadAll(read, rest))
  {
    assert (seen + rest)[|seen|..] == rest;
  }

  /** `msgs` were delivered of the stream `all`, of which `left` is still to be read. */
  ghost predicate Delivered(read: Reader, all: seq<byte>, msgs: seq<Msg>, left: seq<byte>) {
    ReadAll(read, all) == After(msgs, ReadAll(read, left))
  }

  lemma DeliverNext(read: Reader, all: seq<byte>, msgs: seq<Msg>, seen: seq<byte>, rest: seq<byte>)
    requires Steady(read) && seen != [] && Delivered(read, all, msgs, seen + rest)
    requires read(seen).Complete? && read(seen).length == |seen|
    ensures Delivered(read, all, msgs + [read(seen).msg], rest)
  {
    FrameInFront(read, seen, rest);
    AfterAfter(msgs, [read(seen).msg], ReadAll(read, rest));
  }

  /** Messages and error of a whole stream. */
  ghost predicate Agrees(p: Parsed, msgs: seq<Msg>, error: Option<Error>) { p.msgs == msgs && p.error == error }

  /** A stream was read as far as `s`, with the unfinished frame `pre` at the end. */
  ghost predicate SoFar(read: Reader, s: seq<byte>, msgs: seq<Msg>, pre: seq<byte>) {
    ReadAll(read, s) == Parsed(msgs, pre, None)
  }

  /** The next piece was read together with the unfinished frame. */
  lemma ReadMore(read: Reader, s: seq<byte>, msgs: seq<Msg>, pre: seq<byte>, t: seq<byte>, more: seq<Msg>, error: Option<Error>)
    requires Steady(read) && SoFar(read, s, msgs, pre) && Agrees(ReadAll(read, pre + t), more, error)
    ensures Agrees(ReadAll(read, s + t), msgs + more, error)
    ensures error.None? ==> SoFar(read, s + t, msgs + more, ReadAll(read, pre + t).rest)
  {
    ReadInPieces(read, s, t);
  }

  lemma ErrorStays(read: Reader, s: seq<byte>, t: seq<byte>, msgs: seq<Msg>, error: Option<Error>)
    requires Steady(read) && Agrees(ReadAll(read, s), msgs, error) && error.Some?
    ensures Agrees(ReadAll(read, s + t), msgs, error)
  {
    ReadInPieces(read, s, t);
  }

  /** What one call of the decoder amounts to. */
  lemma CallDone(read: Reader, all: seq<byte>, msgs: seq<Msg>, seen: seq<byte>, rest: seq<byte>, rc: Outcome)
    requires Steady(read) && seen != [] && Delivered(read, all, msgs, seen + rest)
    requires match rc
      case Again => read(seen).Incomplete? && rest == []
      case Ready => read(seen).Complete? && read(seen).length == |seen|
      case Failed(e) => read(seen) == Bad(e)
    ensures rc.Again? ==> SoFar(read, all, msgs, seen)
    ensures rc.Ready? ==> Delivered(read, all, msgs + [read(seen).msg], rest)
    ensures rc.Failed? ==> Agrees(ReadAll(read, all), msgs, Some(rc.error))
  {
    assert seen + [] == seen;
    if rc.Ready? { DeliverNext(read, all, msgs, seen, rest); }
  }

  /** Decodes a buffer to its end. */
  method Drain(dec: Decoder, data: seq<byte>, ghost read: Reader) returns (msgs: seq<Msg>, error: Option<Error>)
    requires dec.Live() && read == ReaderFor(dec.v, dec.lim) && Steady(read)
    modifies dec, dec.tmpbuf, dec.body
    ensures Agrees(ReadAll(read, old(dec.pre) + data), msgs, error)
    ensures error.None? ==> dec.Live() && dec.pre == ReadAll(read, old(dec.pre) + data).rest
    ensures dec.body == old(dec.body) || fresh(dec.body)
  {
    ghost var all := old(dec.pre) + data;
    msgs, error := [], None;
    var left := data;
    Nothing(read, all);
    while left != []
      invariant dec.Live() && (dec.body == old(dec.body) || fresh(dec.body))
      invariant Delivered(read, all, msgs, dec.pre + left)
      decreases |left|
    {
      var rc, m, used := DrainSome(dec, left, read, all, msgs);
      if rc.Failed? { return msgs, Some(rc.error); }
      if rc.Ready? { msgs := msgs + [m]; }
      left := left[used..];
    }
    dec.Waits();
    assert dec.pre + left == dec.pre;
    NoFrame(read, all, msgs, dec.pre);
  }

  lemma Nothing(read: Reader, all: seq<byte>)
    ensures Delivered(read, all, [], all)
  {}

  lemma NoFrame(read: Reader, all: seq<byte>, msgs: seq<Msg>, left: seq<byte>)
    requires Delivered(read, all, msgs, left) && read(left).Incomplete?
    ensures SoFar(read, all, msgs, left)
  {}

  /** One call of the decoder on what is left of the buffer. */
  method DrainSome(dec: Decoder, left: seq<byte>, ghost read: Reader, ghost all: seq<byte>, ghost msgs: seq<Msg>)
    returns (rc: Outcome, m: Msg, used: nat)
    requires dec.Live() && read == ReaderFor(dec.v, dec.lim) && Steady(read)
    requires left != [] && Delivered(read, all, msgs, dec.pre + left)
    modifies dec, dec.tmpbuf, dec.body
    ensures 0 < used <= |left| && (dec.body == old(dec.body) || fresh(dec.body))
    ensures !rc.Failed? ==> dec.Live() && Delivered(read, all, if rc.Ready? then msgs + [m] else msgs, dec.pre + left[used..])
    ensures rc.Failed? ==> Agrees(ReadAll(read, all), msgs, Some(rc.error))
  {
    rc, used := dec.Decode(left);
    m := dec.Message();
    Cut(old(dec.pre), left, used);
    ReaderIsSteady(dec.v, dec.lim);
    CallDone(read, all, msgs, old(dec.pre) + left[..used], left[used..], rc);
    if rc.Ready? { assert dec.pre + left[used..] == left[used..]; }
  }

  lemma Cut(pre: seq<byte>, left: seq<byte>, used: nat)
    requires used <= |left|
    ensures pre + left == pre + left[..used] + left[used..]
  {
    assert left == left[..used] + left[used..];
  }

  /** A read straight into the message. */
  method InPlace(dec: Decoder, data: seq<byte>, ghost read: Reader) returns (msgs: seq<Msg>, error: Option<Error>)
    requires dec.Live() && read == ReaderFor(dec.v, dec.lim) && Steady(read)
    requires data != [] && |data| <= dec.toRead
    modifies dec, dec.tmpbuf, dec.body
    ensures Agrees(ReadAll(read, old(dec.pre) + data), msgs, error)
    ensures error.None? ==> dec.Live() && dec.pre == ReadAll(read, old(dec.pre) + data).rest
    ensures dec.body == old(dec.body) || fresh(dec.body)
  {
    ghost var seen := old(dec.pre) + data;
    var rc := dec.FillAndDecode(data);
    Nothing(read, seen);
    assert seen + [] == seen;
    CallDone(read, seen, [], seen, [], rc);
    msgs, error := Outcomes(dec, rc, read, seen);
  }

  method Outcomes(dec: Decoder, rc: Outcome, ghost read: Reader, ghost seen: seq<byte>) returns (msgs: seq<Msg>, error: Option<Error>)
    requires read == ReaderFor(dec.v, dec.lim) && (!rc.Failed? ==> dec.Live())
    requires rc.Again? ==> SoFar(read, seen, [], seen) && dec.pre == seen
    requires rc.Ready? ==> Delivered(read, seen, [dec.Message()], []) && dec.pre == []
    requires rc.Failed? ==> Agrees(ReadAll(read, seen), [], Some(rc.error))
    ensures Agrees(ReadAll(read, seen), msgs, error)
    ensures error.None? ==> dec.Live() && dec.pre == ReadAll(read, seen).rest
  {
    msgs, error := [], None;
    if rc.Failed? {
      error := Some(rc.error);
    } else if rc.Ready? {
      msgs := [dec.Message()];
      dec.Waits();
      NoFrame(read, seen, msgs, []);
    }
  }

  /** One read from the network: into the message itself when at least a buffer of it is missing. */
  method InEvent(dec: Decoder, data: seq<byte>, ghost read: Reader) returns (msgs: seq<Msg>, error: Option<Error>)
    requires dec.Live() && read == ReaderFor(dec.v, dec.lim) && Steady(read)
    requires data != [] && |data| <= if dec.toRead >= dec.bufsize then dec.toRead else dec.bufsize
    modifies dec, dec.tmpbuf, dec.body
    ensures Agrees(ReadAll(read, old(dec.pre) + data), msgs, error)
    ensures error.None? ==> dec.Live() && dec.pre == ReadAll(read, old(dec.pre) + data).rest
    ensures dec.body == old(dec.body) || fresh(dec.body)
  {
    var inPlace, size := dec.GetBuffer();
    if inPlace {
      msgs, error := InPlace(dec, data, read);
    } else {
      msgs, error := Drain(dec, data, read);
    }
  }

  /** One read, of any size that the buffer allows, of the stream from position `i`. */
  method ReceiveSome(dec: Decoder, stream: seq<byte>, i: nat, ghost read: Reader, ghost msgs: seq<Msg>)
    returns (n: nat, more: seq<Msg>, error: Option<Error>)
    requires dec.Live() && dec.bufsize > 0 && read == ReaderFor(dec.v, dec.lim) && Steady(read)
    requires i < |stream| && SoFar(read, stream[..i], msgs, dec.pre)
    modifies dec, dec.tmpbuf, dec.body
    ensures i < n <= |stream| && (dec.body == old(dec.body) || fresh(dec.body))
    ensures error.None? ==> dec.Live() && SoFar(read, stream[..n], msgs + more, dec.pre)
    ensures error.Some? ==> Agrees(ReadAll(read, stream), msgs + more, error)
  {
    var inPlace, room := dec.GetBuffer();
    n :| i < n <= i + room && n <= |stream|;
    more, error := InEvent(dec, stream[i..n], read);
    ReadOn(read, stream, i, n, msgs, old(dec.pre), more, error);
  }

  lemma ReadOn(read: Reader, stream: seq<byte>, i: nat, n: nat, msgs: seq<Msg>, pre: seq<byte>, more: seq<Msg>, error: Option<Error>)
    requires Steady(read) && i <= n <= |stream| && SoFar(read, stream[..i], msgs, pre)
    requires Agrees(ReadAll(read, pre + stream[i..n]), more, error)
    ensures error.None? ==> SoFar(read, stream[..n], msgs + more, ReadAll(read, pre + stream[i..n]).rest)
    ensures error.Some? ==> Agrees(ReadAll(read, stream), msgs + more, error)
  {
    ReadMore(read, stream[..i], msgs, pre, stream[i..n], more, error);
    assert stream[..i] + stream[i..n] == stream[..n];
    if error.Some? {
      ErrorStays(read, stream[..n], stream[n..], msgs + more, error);
      assert stream[..n] + stream[n..] == stream;
    }
  }

  /** The whole stream, in reads of any size. */
  method Receive(dec: Decoder, stream: seq<byte>, ghost read: Reader) returns (msgs: seq<Msg>, error: Option<Error>)
    requires dec.Live() && dec.pre == [] && dec.bufsize > 0 && read == ReaderFor(dec.v, dec.lim)
    modifies dec, dec.tmpbuf, dec.body
    ensures Agrees(ReadAll(read, stream), msgs, error)
    ensures error.None? ==> dec.Live() && dec.pre == ReadAll(read, stream).rest && read(dec.pre).Incomplete?
    ensures error.Some? ==> read(ReadAll(read, stream).rest) == Bad(error.value)
  {
    ReaderIsSteady(dec.v, dec.lim);
    RestIsIncomplete(read, stream);
    msgs, error := [], None;
    var i := 0;
    dec.Waits();
    assert stream[..i] == [];
    Nothing(read, []);
    NoFrame(read, [], [], []);
    while i < |stream|
      invariant i <= |stream| && error.None?
      invariant dec.Live() && (dec.body == old(dec.body) || fresh(dec.body))
      invariant SoFar(read, stream[..i], msgs, dec.pre)
      decreases |stream| - i
    {
      var more;
      i, more, error := ReceiveSome(dec, stream, i, read, msgs);
      msgs := msgs + more;
      if error.Some? { return; }
    }
    assert stream[..i] == stream;
  }
}
