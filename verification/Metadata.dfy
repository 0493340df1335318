/** The properties that peers exchange when they connect: mechanism_t::add_property and
    mechanism_t::parse_metadata. */
module Metadata {
  import opened Basics
  import opened Wire

  datatype Property = Property(name: seq<byte>, value: seq<byte>)

  predicate Writable(p: Property) { |p.name| <= 255 && |p.value| < 0x1_0000_0000 }

  /** What add_property writes. */
  function AddProperty(p: Property): (r: seq<byte>)
    requires Writable(p)
    ensures |r| == 1 + |p.name| + 4 + |p.value|
  {
    [|p.name|] + p.name + PutUint32(|p.value|) + p.value
  }

  /** A name of one byte and a value of one byte, as they appear on the wire. */
  lemma PropertyBytes(n: byte, v: byte)
    ensures AddProperty(Property([n], [v])) == [1, n, 0, 0, 0, 1, v]
  {}

  predicate AllWritable(ps: seq<Property>) { forall p :: p in ps ==> Writable(p) }

  function AddAll(ps: seq<Property>): seq<byte>
    requires AllWritable(ps)
  {
    if ps == [] then [] else AddProperty(ps[0]) + AddAll(ps[1..])
  }

  /** What is found at the front of the bytes: a property, a property broken off where the parser does
      not notice, or nothing sensible. */
  datatype Front = Whole(property: Property, length: nat) | Cut | Broken

  function ReadFront(s: seq<byte>): (f: Front)
    requires |s| > 1
    ensures f.Whole? ==> 0 < f.length <= |s|
  {
    var n: int := s[0];
    if |s| - 1 < n then Broken
    else if |s| - 1 - n < 4 then (if |s| - 1 - n == 0 then Cut else Broken)
    else
      var v := Value(s[1 + n..5 + n]);
      if |s| - 5 - n < v then (if |s| - 5 - n == 0 then Cut else Broken)
      else Whole(Property(s[1..1 + n], s[5 + n..5 + n + v]), 5 + n + v)
  }

  /** The properties handed to the mechanism, and whether parsing succeeds. */
  datatype Parsed = Parsed(props: seq<Property>, ok: bool)

  function Parse(accept: Property -> bool, s: seq<byte>): Parsed
    decreases |s|
  {
    if |s| <= 1 then Parsed([], |s| == 0)
    else
      match ReadFront(s)
      case Broken => Parsed([], false)
      case Cut => Parsed([], true)
      case Whole(p, n) =>
        if !accept(p) then Parsed([p], false)
        else Then([p], Parse(accept, s[n..]))
  }

  function Then(props: seq<Property>, r: Parsed): Parsed { Parsed(props + r.props, r.ok) }

  /** One round of the loop of parse_metadata, with `left` bytes to go. */
  method ReadProperty(s: seq<byte>, at: nat) returns (f: Front)
    requires at + 1 < |s|
    ensures f == ReadFront(s[at..])
  {
    ghost var rest := s[at..];
    var i, left := at, |s| - at;
    var n: int := s[i];
    i, left := i + 1, left - 1;
    if left < n { return Broken; }
    var name := s[i..i + n];
    i, left := i + n, left - n;
    if left < 4 { return if left == 0 then Cut else Broken; }
    assert s[i..i + 4] == rest[1 + n..5 + n] && name == rest[1..1 + n];
    var v := GetUint32(s[i..i + 4]);
    Get32IsValue(s[i..i + 4]);
    i, left := i + 4, left - 4;
    if left < v { return if left == 0 then Cut else Broken; }
    assert s[i..i + v] == rest[5 + n..5 + n + v];
    f := Whole(Property(name, s[i..i + v]), 5 + n + v);
  }

  /** The loop. */
  method ParseMetadata(accept: Property -> bool, s: seq<byte>) returns (r: Parsed)
    ensures r == Parse(accept, s)
  {
    var i := 0;
    var props: seq<Property> := [];
    assert s[0..] == s;
    while i + 1 < |s|
      invariant i <= |s|
      invariant Parse(accept, s) == Then(props, Parse(accept, s[i..]))
      decreases |s| - i
    {
      var f := ReadProperty(s, i);
      match f
      case Broken => return Parsed(props, false);
      case Cut => return Parsed(props, true);
      case Whole(p, n) =>
        if !accept(p) { return Parsed(props + [p], false); }
        assert s[i..][n..] == s[i + n..];
        ThenThen(props, p, Parse(accept, s[i + n..]));
        props := props + [p];
        i := i + n;
    }
    return Parsed(props, i == |s|);
  }

  lemma ThenThen(props: seq<Property>, p: Property, r: Parsed)
    ensures Then(props, Then([p], r)) == Then(props + [p], r)
  {
    assert props + ([p] + r.props) == props + [p] + r.props;
  }

  /** A property broken off right after its name, or right after the length of its value. */
  predicate CutOff(t: seq<byte>) {
    && |t| > 1
    && (|t| - 1 == t[0] || (|t| - 5 == t[0] && Value(t[|t| - 4..]) > 0))
  }

  lemma FrontOfProperty(p: Property, t: seq<byte>)
    requires Writable(p)
    ensures |AddProperty(p) + t| > 1 && ReadFront(AddProperty(p) + t) == Whole(p, |AddProperty(p)|)
  {
    var s, n := AddProperty(p) + t, |p.name|;
    assert s[0] == n && s[1..1 + n] == p.name;
    assert s[1 + n..5 + n] == PutUint32(|p.value|);
    Put32IsDigits(|p.value|);
    assert Power(4) == 0x1_0000_0000;
    ValueOfDigits(|p.value|, 4);
    assert s[5 + n..5 + n + |p.value|] == p.value;
  }

  lemma PropertyOfFront(s: seq<byte>)
    requires |s| > 1 && ReadFront(s).Whole?
    ensures var f := ReadFront(s); Writable(f.property) && s == AddProperty(f.property) + s[f.length..]
  {
    var n: int := s[0];
    assert Power(4) == 0x1_0000_0000;
    DigitsOfValue(s[1 + n..5 + n]);
    Put32IsDigits(Value(s[1 + n..5 + n]));
    assert s == [s[0]] + s[1..1 + n] + s[1 + n..5 + n] + s[5 + n..];
  }

  /** What the parser succeeds on, and the properties it then reports. */
  ghost predicate Accepted(accept: Property -> bool, s: seq<byte>, ps: seq<Property>) {
    && AllWritable(ps) && (forall p :: p in ps ==> accept(p))
    && AddAll(ps) <= s && (s == AddAll(ps) || CutOff(s[|AddAll(ps)|..]))
  }

  lemma AcceptedNext(accept: Property -> bool, p: Property, t: seq<byte>, ps: seq<Property>)
    requires Writable(p) && accept(p) && Accepted(accept, t, ps)
    ensures Accepted(accept, AddProperty(p) + t, [p] + ps)
  {
    var w := AddProperty(p);
    assert ([p] + ps)[1..] == ps;
    assert AddAll([p] + ps) == w + AddAll(ps);
    assert (w + t)[|w| + |AddAll(ps)|..] == t[|AddAll(ps)|..];
  }

  /** The parser succeeds only on lists of acceptable properties, the last of which may be broken off
      in either of two places, and it reports the whole ones. */
  lemma {:induction false} SuccessIsAccepted(accept: Property -> bool, s: seq<byte>)
    ensures Parse(accept, s).ok ==> Accepted(accept, s, Parse(accept, s).props)
    decreases |s|
  {
    if |s| > 1 {
      var f := ReadFront(s);
      if f.Whole? && accept(f.property) {
        PropertyOfFront(s);
        SuccessIsAccepted(accept, s[f.length..]);
        if Parse(accept, s[f.length..]).ok {
          AcceptedNext(accept, f.property, s[f.length..], Parse(accept, s[f.length..]).props);
        }
      } else if f.Cut? {
        CutIsCutOff(s);
      }
    }
  }

  lemma CutIsCutOff(s: seq<byte>)
    requires |s| > 1
    ensures ReadFront(s).Cut? <==> CutOff(s)
  {
    var n: int := s[0];
    if |s| - 5 == n { assert s[1 + n..5 + n] == s[|s| - 4..]; }
  }

  /** It does so on all of those; so a list of properties is read back as it was written. */
  lemma {:induction false} AcceptedIsSuccess(accept: Property -> bool, ps: seq<Property>, t: seq<byte>)
    requires AllWritable(ps) && (forall p :: p in ps ==> accept(p)) && (t == [] || CutOff(t))
    ensures Parse(accept, AddAll(ps) + t) == Parsed(ps, true)
    decreases |ps|
  {
    if ps == [] {
      ParseTail(accept, t);
      assert AddAll(ps) + t == t;
    } else {
      AcceptedIsSuccess(accept, ps[1..], t);
      ParseFirst(accept, ps, t);
    }
  }

  lemma ParseFirst(accept: Property -> bool, ps: seq<Property>, t: seq<byte>)
    requires ps != [] && AllWritable(ps) && accept(ps[0])
    requires Parse(accept, AddAll(ps[1..]) + t) == Parsed(ps[1..], true)
    ensures Parse(accept, AddAll(ps) + t) == Parsed(ps, true)
  {
    ParseNext(accept, ps[0], ps[1..], AddAll(ps[1..]), t);
    assert ps == [ps[0]] + ps[1..];
  }

  lemma ParseTail(accept: Property -> bool, t: seq<byte>)
    requires t == [] || CutOff(t)
    ensures Parse(accept, t) == Parsed([], true)
  {
    if t != [] { CutIsCutOff(t); }
  }

  lemma ParseNext(accept: Property -> bool, p: Property, ps: seq<Property>, s: seq<byte>, t: seq<byte>)
    requires Writable(p) && accept(p) && Parse(accept, s + t) == Parsed(ps, true)
    ensures Parse(accept, AddProperty(p) + s + t) == Parsed([p] + ps, true)
  {
    var w := AddProperty(p);
    FrontOfProperty(p, s + t);
    assert (w + (s + t))[|w|..] == s + t;
    assert w + s + t == w + (s + t);
  }
}
