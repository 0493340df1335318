/** The frames of ZMTP 1.0 (V1) and ZMTP 2.0/3.0 (V2): what a byte stream says when it is read in
    one go, and the frames that are written for messages. */
module Frames {
  import opened Basics
  import opened Wire

  datatype Version = V1 | V2

  datatype Msg = Msg(more: bool, command: bool, body: seq<byte>)

  datatype Error = Emsgsize | Eproto

  /** `max` is the limit on the size of a message, none if negative; `sizeMax` the largest size the
      machine can represent. */
  datatype Limits = Limits(max: int, sizeMax: nat)

  predicate Machine(lim: Limits) { 255 <= lim.sizeMax < TWO_TO_64 }

  datatype Header = NeedMore | Malformed(error: Error) | Header(length: nat, size: nat, more: bool, command: bool)

  predicate MoreBit(f: byte) { f % 2 == 1 }

  predicate LargeBit(f: byte) { (f / 2) % 2 == 1 }

  predicate CommandBit(f: byte) { (f / 4) % 2 == 1 }

  /** A message of the given size is within the limits. */
  predicate Fits(lim: Limits, size: nat) { (lim.max < 0 || size <= lim.max) && size <= lim.sizeMax }

  function ReadHeader(v: Version, lim: Limits, s: seq<byte>): (h: Header)
    ensures h.Header? ==> 2 <= h.length <= |s|
  {
    match v
    case V2 =>
      if |s| < 1 then NeedMore
      else
        var k := if LargeBit(s[0]) then 9 else 2;
        if |s| < k then NeedMore
        else
          var size: nat := if LargeBit(s[0]) then Value(s[1..9]) else s[1];
          if !Fits(lim, size) then Malformed(Emsgsize)
          else Header(k, size, MoreBit(s[0]), CommandBit(s[0]))
    case V1 =>
      if |s| < 1 then NeedMore
      else
        var k := if s[0] == 255 then 9 else 1;
        if |s| < k then NeedMore
        else
          var length: nat := if s[0] == 255 then Value(s[1..9]) else s[0];
          if length == 0 then Malformed(Eproto)
          else if !Fits(lim, length - 1) then Malformed(Emsgsize)
          else if |s| < k + 1 then NeedMore
          else Header(k + 1, length - 1, MoreBit(s[k]), false)
  }

  /** The first frame of a byte string. */
  datatype Frame = Incomplete | Bad(error: Error) | Complete(msg: Msg, length: nat)

  function ReadFrame(v: Version, lim: Limits, s: seq<byte>): (f: Frame)
    ensures f.Complete? ==> 2 <= f.length <= |s|
  {
    match ReadHeader(v, lim, s)
    case NeedMore => Incomplete
    case Malformed(e) => Bad(e)
    case Header(length, size, more, command) =>
      if |s| < length + size then Incomplete
      else Complete(Msg(more, command, s[length..length + size]), length + size)
  }

  type Reader = seq<byte> -> Frame

  function ReaderFor(v: Version, lim: Limits): Reader { s => ReadFrame(v, lim, s) }

  /** A reader takes at least a byte per frame, from those it was given, and more bytes do not
      change a decision it made. */
  ghost predicate Steady(read: Reader) {
    && (forall s :: read(s).Complete? ==> 0 < read(s).length <= |s|)
    && (forall s, t :: !read(s).Incomplete? ==> read(s + t) == read(s))
  }

  /** The whole of a byte string: its messages, and what is left at the end or in error. */
  datatype Parsed = Parsed(msgs: seq<Msg>, rest: seq<byte>, error: Option<Error>)

  function ReadAll(read: Reader, s: seq<byte>): Parsed
    decreases |s|
  {
    var f := read(s);
    if f.Complete? && 0 < f.length <= |s| then After([f.msg], ReadAll(read, s[f.length..]))
    else Parsed([], s, if f.Bad? then Some(f.error) else None)
  }

  function After(ms: seq<Msg>, p: Parsed): Parsed { p.(msgs := ms + p.msgs) }

  // ----- Reading in pieces ----------------------------------------------------------------

  /** More bytes do not change a decision that was made. */
  lemma HeaderStable(v: Version, lim: Limits, s: seq<byte>, t: seq<byte>)
    ensures !ReadHeader(v, lim, s).NeedMore? ==> ReadHeader(v, lim, s + t) == ReadHeader(v, lim, s)
  {
    if |s| >= 9 { assert (s + t)[1..9] == s[1..9]; }
  }

  lemma FrameStable(v: Version, lim: Limits, s: seq<byte>, t: seq<byte>)
    ensures !ReadFrame(v, lim, s).Incomplete? ==> ReadFrame(v, lim, s + t) == ReadFrame(v, lim, s)
  {
    HeaderStable(v, lim, s, t);
    var h := ReadHeader(v, lim, s);
    if h.Header? && |s| >= h.length + h.size {
      assert (s + t)[h.length..h.length + h.size] == s[h.length..h.length + h.size];
    }
  }

  lemma ReaderIsSteady(v: Version, lim: Limits)
    ensures Steady(ReaderFor(v, lim))
  {
    forall s, t | !ReadFrame(v, lim, s).Incomplete? ensures ReadFrame(v, lim, s + t) == ReadFrame(v, lim, s) {
      FrameStable(v, lim, s, t);
    }
  }

  lemma AfterAfter(ks: seq<Msg>, ms: seq<Msg>, p: Parsed)
    ensures After(ks, After(ms, p)) == After(ks + ms, p)
  {
    assert ks + (ms + p.msgs) == ks + ms + p.msgs;
  }

  /** Reading a stream in two pieces: the second is read together with what the first left over. */
  lemma {:induction false} ReadInPieces(read: Reader, s: seq<byte>, t: seq<byte>)
    requires Steady(read)
    ensures var p := ReadAll(read, s);
      && (p.error.None? ==> ReadAll(read, s + t) == After(p.msgs, ReadAll(read, p.rest + t)))
      && (p.error.Some? ==> ReadAll(read, s + t) == p.(rest := p.rest + t))
    decreases |s|
  {
    var f := read(s);
    if f.Complete? {
      ReadInPieces(read, s[f.length..], t);
      PieceNext(read, s, t, ReadAll(read, s[f.length..]));
    }
  }

  lemma PieceNext(read: Reader, s: seq<byte>, t: seq<byte>, q: Parsed)
    requires Steady(read) && read(s).Complete? && q == ReadAll(read, s[read(s).length..])
    ensures ReadAll(read, s) == After([read(s).msg], q)
    ensures ReadAll(read, s + t) == After([read(s).msg], ReadAll(read, s[read(s).length..] + t))
    ensures forall p :: After([read(s).msg], After(q.msgs, p)) == After(([read(s).msg] + q.msgs), p)
  {
    var n := read(s).length;
    assert (s + t)[n..] == s[n..] + t;
    forall p ensures After([read(s).msg], After(q.msgs, p)) == After(([read(s).msg] + q.msgs), p) {
      AfterAfter([read(s).msg], q.msgs, p);
    }
  }

  /** What is left over holds no complete frame. */
  lemma {:induction false} RestIsIncomplete(read: Reader, s: seq<byte>)
    requires Steady(read)
    ensures var p := ReadAll(read, s);
      if p.error.None? then read(p.rest).Incomplete? else read(p.rest) == Bad(p.error.value)
    decreases |s|
  {
    var f := read(s);
    if f.Complete? { RestIsIncomplete(read, s[f.length..]); }
  }

  // ----- Writing --------------------------------------------------------------------------

  function Digits8(v: nat): (r: seq<byte>)
    ensures |r| == 8
  {
    Digits(v, 8)
  }

  lemma ValueOf8(v: nat)
    requires v < TWO_TO_64
    ensures Value(Digits8(v)) == v
  {
    PowerOf8();
    ValueOfDigits(v, 8);
  }

  function FlagByte(more: bool, large: bool, command: bool): (f: byte)
    ensures MoreBit(f) == more && LargeBit(f) == large && CommandBit(f) == command
  {
    (if more then 1 else 0) + (if large then 2 else 0) + (if command then 4 else 0)
  }

  /** The two forms of the flags and the length in front of a message. */
  function ShortForm(v: Version, more: bool, command: bool, size: nat): (r: seq<byte>)
    requires if v.V2? then size <= 255 else size + 1 < 255
  {
    if v.V2? then [FlagByte(more, false, command), size] else [size + 1, FlagByte(more, false, false)]
  }

  function LongForm(v: Version, more: bool, command: bool, size: nat): (r: seq<byte>) {
    if v.V2? then [FlagByte(more, true, command)] + Digits8(size)
    else [255] + Digits8(size + 1) + [FlagByte(more, false, false)]
  }

  /** The writer uses the short form where it can. */
  function WriteHeader(v: Version, m: Msg): (r: seq<byte>)
    ensures |r| >= 2
  {
    if (if v.V2? then |m.body| > 255 else |m.body| + 1 >= 255) then LongForm(v, m.more, m.command, |m.body|)
    else ShortForm(v, m.more, m.command, |m.body|)
  }

  function WriteFrame(v: Version, m: Msg): seq<byte> {
    WriteHeader(v, m) + m.body
  }

  /** The messages fit in a 64-bit address space. */
  predicate Writable(ms: seq<Msg>) { forall m :: m in ms ==> |m.body| + 1 < TWO_TO_64 }

  type Writer = Msg -> seq<byte>

  function WriterFor(v: Version): Writer { m => WriteFrame(v, m) }

  function Join(write: Writer, ms: seq<Msg>): seq<byte> {
    if ms == [] then [] else write(ms[0]) + Join(write, ms[1..])
  }

  /** The frames of the messages, one after the other. */
  function WriteAll(v: Version, ms: seq<Msg>): seq<byte> { Join(WriterFor(v), ms) }

  lemma {:induction false} JoinAppend(write: Writer, ms: seq<Msg>, ns: seq<Msg>)
    ensures Join(write, ms + ns) == Join(write, ms) + Join(write, ns)
  {
    if ms == [] {
      assert ms + ns == ns;
    } else {
      JoinAppend(write, ms[1..], ns);
      assert (ms + ns)[1..] == ms[1..] + ns && (ms + ns)[0] == ms[0];
      Regroup(write(ms[0]), Join(write, ms[1..]), Join(write, ns));
    }
  }

  lemma Regroup(a: seq<byte>, b: seq<byte>, c: seq<byte>)
    ensures a + (b + c) == a + b + c
  {}

  lemma WriteNext(v: Version, ms: seq<Msg>, k: nat)
    requires k < |ms|
    ensures WriteAll(v, ms[..k + 1]) == WriteAll(v, ms[..k]) + WriteFrame(v, ms[k])
  {
    var write := WriterFor(v);
    assert ms[..k + 1] == ms[..k] + [ms[k]];
    JoinAppend(write, ms[..k], [ms[k]]);
    assert Join(write, [ms[k]]) == write(ms[k]) + Join(write, []);
  }

  /** What survives the trip: ZMTP 1.0 has no command flag. */
  function Carried(v: Version, m: Msg): Msg { if v.V1? then m.(command := false) else m }

  function CarriedAll(v: Version, ms: seq<Msg>): seq<Msg> { seq(|ms|, i requires 0 <= i < |ms| => Carried(v, ms[i])) }

  /** What a reader makes of either form. */
  function Announced(v: Version, lim: Limits, more: bool, command: bool, size: nat, length: nat): Header {
    if Fits(lim, size) then Header(length, size, more, v.V2? && command) else Malformed(Emsgsize)
  }

  lemma ReadShort(v: Version, lim: Limits, more: bool, command: bool, size: nat, t: seq<byte>)
    requires if v.V2? then size <= 255 else size + 1 < 255
    ensures ReadHeader(v, lim, ShortForm(v, more, command, size) + t) == Announced(v, lim, more, command, size, 2)
  {
    var w := ShortForm(v, more, command, size);
    assert (w + t)[0] == w[0] && (w + t)[1] == w[1];
  }

  lemma ReadLong(v: Version, lim: Limits, more: bool, command: bool, size: nat, t: seq<byte>)
    requires size + 1 < TWO_TO_64
    ensures var w := LongForm(v, more, command, size);
      ReadHeader(v, lim, w + t) == Announced(v, lim, more, command, size, |w|)
  {
    var w := LongForm(v, more, command, size);
    var n := if v.V2? then size else size + 1;
    ValueOf8(n);
    assert (w + t)[1..9] == Digits8(n);
    assert (w + t)[0] == w[0];
    if v.V1? { assert (w + t)[9] == w[9]; }
  }

  /** The same size in the short and in the long form is accepted or refused alike, by the limit. */
  lemma LimitIgnoresForm(v: Version, lim: Limits, more: bool, command: bool, size: nat, t: seq<byte>)
    requires Machine(lim) && if v.V2? then size <= 255 else size + 1 < 255
    ensures var a := ReadHeader(v, lim, ShortForm(v, more, command, size) + t);
      var b := ReadHeader(v, lim, LongForm(v, more, command, size) + t);
      && (a.Header? <==> lim.max < 0 || size <= lim.max)
      && (if a.Header? then b.Header? && b.(length := a.length) == a else a == b == Malformed(Emsgsize))
  {
    ReadShort(v, lim, more, command, size, t);
    ReadLong(v, lim, more, command, size, t);
  }

  lemma HeaderRoundTrip(v: Version, lim: Limits, m: Msg, t: seq<byte>)
    requires |m.body| + 1 < TWO_TO_64
    ensures ReadHeader(v, lim, WriteHeader(v, m) + t)
      == Announced(v, lim, m.more, m.command, |m.body|, |WriteHeader(v, m)|)
  {
    if (if v.V2? then |m.body| > 255 else |m.body| + 1 >= 255) {
      ReadLong(v, lim, m.more, m.command, |m.body|, t);
    } else {
      ReadShort(v, lim, m.more, m.command, |m.body|, t);
    }
  }

  lemma FrameRoundTrip(v: Version, lim: Limits, m: Msg, t: seq<byte>)
    requires |m.body| + 1 < TWO_TO_64
    ensures ReadFrame(v, lim, WriteFrame(v, m) + t)
      == if Fits(lim, |m.body|) then Complete(Carried(v, m), |WriteFrame(v, m)|) else Bad(Emsgsize)
  {
    HeaderRoundTrip(v, lim, m, m.body + t);
    BodyInFront(WriteHeader(v, m), m.body, t);
  }

  lemma BodyInFront(w: seq<byte>, body: seq<byte>, t: seq<byte>)
    ensures w + body + t == w + (body + t) && (w + body + t)[|w|..|w| + |body|] == body
  {}

  // ----- The bytes of the protocol -----------------------------------------------------------

  const MORE_FLAG: bv8 := 1
  const LARGE_FLAG: bv8 := 2
  const COMMAND_FLAG: bv8 := 4

  /** The flags are the bits that the protocol gives them. */
  lemma FlagMasks(f: byte)
    ensures MoreBit(f) <==> f as bv8 & MORE_FLAG != 0
    ensures LargeBit(f) <==> f as bv8 & LARGE_FLAG != 0
    ensures CommandBit(f) <==> f as bv8 & COMMAND_FLAG != 0
  {}

  /** A header of ZMTP 2.0: a byte of flags, then the size in one byte, or in eight from 256 on; the other
      five bits are clear. */
  lemma V2HeaderBytes(m: Msg)
    requires |m.body| < TWO_TO_64
    ensures var w := WriteHeader(V2, m);
      && (w[0] as bv8 & MORE_FLAG != 0 <==> m.more) && (w[0] as bv8 & COMMAND_FLAG != 0 <==> m.command)
      && (w[0] as bv8 & LARGE_FLAG != 0 <==> |m.body| >= 256) && w[0] < 8
      && w[1..] == if |m.body| >= 256 then PutUint64(|m.body|) else [|m.body|]
  {
    FlagMasks(WriteHeader(V2, m)[0]);
    PutIsDigits(|m.body|);
  }

  /** A header of ZMTP 1.0: one more than the size, in one byte or as 255 and eight bytes, then a byte of
      flags. */
  lemma V1HeaderBytes(m: Msg)
    requires |m.body| + 1 < TWO_TO_64
    ensures WriteHeader(V1, m) ==
      (if |m.body| < 254 then [|m.body| + 1] else [0xff] + PutUint64(|m.body| + 1)) + [if m.more then 1 else 0]
  {
    PutIsDigits(|m.body| + 1);
  }

  /** Conversely, what a header that is accepted says is written in its bytes. */
  lemma V2HeaderSays(lim: Limits, s: seq<byte>)
    requires Machine(lim) && ReadHeader(V2, lim, s).Header?
    ensures var h := ReadHeader(V2, lim, s);
      && (s[0] as bv8 & MORE_FLAG != 0 <==> h.more) && (s[0] as bv8 & COMMAND_FLAG != 0 <==> h.command)
      && s[1..h.length] == if s[0] as bv8 & LARGE_FLAG != 0 then PutUint64(h.size) else [h.size]
  {
    FlagMasks(s[0]);
    if LargeBit(s[0]) { EightBytes(s[1..9]); }
  }

  lemma V1HeaderSays(lim: Limits, s: seq<byte>)
    requires Machine(lim) && ReadHeader(V1, lim, s).Header?
    ensures var h := ReadHeader(V1, lim, s);
      && (s[h.length - 1] as bv8 & MORE_FLAG != 0 <==> h.more) && !h.command && h.size + 1 < TWO_TO_64
      && s[..h.length - 1] == if s[0] == 0xff then [0xff] + PutUint64(h.size + 1) else [h.size + 1]
  {
    FlagMasks(s[ReadHeader(V1, lim, s).length - 1]);
    if s[0] == 0xff {
      EightBytes(s[1..9]);
      assert s[..9] == [s[0]] + s[1..9];
    }
  }

  lemma EightBytes(b: seq<byte>)
    requires |b| == 8
    ensures Value(b) < TWO_TO_64 && PutUint64(Value(b)) == b
  {
    GetIsValue(b);
    RoundTripBack(b);
  }

  /** A message of the given size is over the user's limit or the machine's. */
  predicate TooBig(lim: Limits, size: int) { (lim.max >= 0 && size > lim.max) || size > lim.sizeMax }

  /** A header of ZMTP 2.0 is refused for its size only, as soon as that is there. */
  lemma V2HeaderRefused(lim: Limits, s: seq<byte>)
    ensures ReadHeader(V2, lim, s) != Malformed(Eproto)
    ensures ReadHeader(V2, lim, s) == Malformed(Emsgsize) <==>
      |s| >= 2 && if s[0] as bv8 & LARGE_FLAG != 0 then |s| >= 9 && TooBig(lim, Value(s[1..9])) else TooBig(lim, s[1])
  {
    if s != [] { FlagMasks(s[0]); }
  }

  /** One of ZMTP 1.0 is refused because its length is zero, or for its size. */
  lemma V1HeaderRefused(lim: Limits, s: seq<byte>)
    ensures ReadHeader(V1, lim, s) == Malformed(Eproto) <==>
      |s| >= 1 && (s[0] == 0 || (s[0] == 0xff && |s| >= 9 && s[1..9] == [0, 0, 0, 0, 0, 0, 0, 0]))
    ensures ReadHeader(V1, lim, s) == Malformed(Emsgsize) <==>
      && |s| >= 1 && s[0] != 0
      && if s[0] == 0xff then |s| >= 9 && Value(s[1..9]) > 0 && TooBig(lim, Value(s[1..9]) - 1) else TooBig(lim, s[0] - 1)
  {
    if |s| >= 9 { ZeroBytes(s[1..9]); }
  }

  lemma ZeroBytes(b: seq<byte>)
    requires |b| == 8
    ensures Value(b) == 0 <==> b == [0, 0, 0, 0, 0, 0, 0, 0]
  {
    EightBytes(b);
    GetIsValue(b);
  }

  /** Reading back what was written, up to the first message over the limit. */
  ghost predicate ReadBack(v: Version, lim: Limits, ms: seq<Msg>, p: Parsed) {
    && |p.msgs| <= |ms| && p.msgs == CarriedAll(v, ms[..|p.msgs|])
    && (forall i :: 0 <= i < |p.msgs| ==> Fits(lim, |ms[i].body|))
    && (if |p.msgs| == |ms| then p.error == None && p.rest == []
        else p.error == Some(Emsgsize) && !Fits(lim, |ms[|p.msgs|].body|))
  }

  lemma ReadBackNext(v: Version, lim: Limits, m: Msg, ms: seq<Msg>, q: Parsed)
    requires ReadBack(v, lim, ms, q) && Fits(lim, |m.body|)
    ensures ReadBack(v, lim, [m] + ms, After([Carried(v, m)], q))
  {
    var p := After([Carried(v, m)], q);
    assert ([m] + ms)[..|p.msgs|] == [m] + ms[..|q.msgs|];
    assert p.msgs == CarriedAll(v, ([m] + ms)[..|p.msgs|]);
  }

  lemma {:induction false} StreamRoundTrip(v: Version, lim: Limits, ms: seq<Msg>)
    requires Writable(ms)
    ensures ReadBack(v, lim, ms, ReadAll(ReaderFor(v, lim), WriteAll(v, ms)))
  {
    if ms != [] {
      var m, w, t := ms[0], WriteFrame(v, ms[0]), WriteAll(v, ms[1..]);
      FrameRoundTrip(v, lim, m, t);
      assert (w + t)[|w|..] == t;
      assert ms == [m] + ms[1..];
      StreamRoundTrip(v, lim, ms[1..]);
      OneMore(v, lim, m, ms[1..], w, t);
    }
  }

  /** A frame in front of a stream. */
  lemma OneMore(v: Version, lim: Limits, m: Msg, ms: seq<Msg>, w: seq<byte>, t: seq<byte>)
    requires ReaderFor(v, lim)(w + t) == if Fits(lim, |m.body|) then Complete(Carried(v, m), |w|) else Bad(Emsgsize)
    requires ReadBack(v, lim, ms, ReadAll(ReaderFor(v, lim), t)) && |w| > 0 && (w + t)[|w|..] == t
    ensures ReadBack(v, lim, [m] + ms, ReadAll(ReaderFor(v, lim), w + t))
  {
    if Fits(lim, |m.body|) { ReadBackNext(v, lim, m, ms, ReadAll(ReaderFor(v, lim), t)); }
  }
}
