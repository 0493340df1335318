/** The two halves of a connection together. */
module Link {
  import opened Basics
  import opened Wire
  import opened Frames
  import E = Encoder
  import D = Decoder
  import Engine

  /** Messages sent by one engine and received by another: whatever the sizes of their buffers and of
      the reads in between, each message arrives with its flags and its bytes, in order, up to the
      first one over the receiver's limit. */
  method Carry(v: Version, lim: Limits, outBatch: nat, inBatch: nat, ms: seq<Msg>)
    returns (msgs: seq<Msg>, error: Option<Error>)
    requires Machine(lim) && outBatch > 0 && inBatch > 0 && Writable(ms)
    ensures |msgs| <= |ms| && msgs == CarriedAll(v, ms[..|msgs|])
    ensures forall i :: 0 <= i < |msgs| ==> Fits(lim, |ms[i].body|)
    ensures if |msgs| == |ms| then error == None else error == Some(Emsgsize) && !Fits(lim, |ms[|msgs|].body|)
  {
    var enc := new E.Encoder(v, outBatch);
    var dec := new D.Decoder(v, lim, inBatch);
    var stream := E.Transmit(enc, ms);
    msgs, error := Engine.Receive(dec, stream, ReaderFor(v, lim));
    StreamRoundTrip(v, lim, ms);
  }
}
