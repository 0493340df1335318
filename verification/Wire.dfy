/** Unsigned integers on the wire, most significant byte first. */
module Wire {
  import opened Basics

  const TWO_TO_64: int := 0x1_0000_0000_0000_0000

  type uint64 = x: int | 0 <= x < 0x1_0000_0000_0000_0000

  /** The value of a byte string. */
  function Value(s: seq<byte>): nat
    decreases |s|
  {
    if s == [] then 0 else Value(s[..|s| - 1]) * 256 + s[|s| - 1]
  }

  /** The `k` low bytes of a value. */
  function Digits(v: nat, k: nat): (r: seq<byte>)
    ensures |r| == k
  {
    if k == 0 then [] else Digits(v / 256, k - 1) + [v % 256]
  }

  /** The first byte is the most significant one. */
  lemma {:induction false} MostSignificantFirst(s: seq<byte>)
    requires s != []
    ensures Value(s) == s[0] * Power(|s| - 1) + Value(s[1..])
    decreases |s|
  {
    var n := |s| - 1;
    if n > 0 {
      MostSignificantFirst(s[..n]);
      assert s[..n][1..] == s[1..][..n - 1];
      assert Power(n) == 256 * Power(n - 1);
    }
  }

  function Power(k: nat): nat { if k == 0 then 1 else 256 * Power(k - 1) }

  lemma {:induction false} ValueOfDigits(v: nat, k: nat)
    requires v < Power(k)
    ensures Value(Digits(v, k)) == v
  {
    if k > 0 {
      ValueOfDigits(v / 256, k - 1);
      assert Digits(v, k)[..k - 1] == Digits(v / 256, k - 1);
    }
  }

  lemma {:induction false} DigitsOfValue(s: seq<byte>)
    ensures Digits(Value(s), |s|) == s && Value(s) < Power(|s|)
    decreases |s|
  {
    if s != [] {
      DigitsOfValue(s[..|s| - 1]);
      assert Value(s) / 256 == Value(s[..|s| - 1]) && Value(s) % 256 == s[|s| - 1];
    }
  }

  function PutUint64(v: uint64): (r: seq<byte>)
    ensures |r| == 8
  {
    [(v / 0x100_0000_0000_0000) % 256, (v / 0x1_0000_0000_0000) % 256,
     (v / 0x100_0000_0000) % 256, (v / 0x1_0000_0000) % 256,
     (v / 0x100_0000) % 256, (v / 0x1_0000) % 256, (v / 0x100) % 256, v % 256]
  }

  function GetUint64(b: seq<byte>): (r: uint64)
    requires |b| == 8
  {
    (b[0] as int) * 0x100_0000_0000_0000 + (b[1] as int) * 0x1_0000_0000_0000 + (b[2] as int) * 0x100_0000_0000 + (b[3] as int) * 0x1_0000_0000
    + (b[4] as int) * 0x100_0000 + (b[5] as int) * 0x1_0000 + (b[6] as int) * 0x100 + b[7]
  }

  function PutUint32(v: nat): (r: seq<byte>)
    requires v < 0x1_0000_0000
    ensures |r| == 4
  {
    [(v / 0x100_0000) % 256, (v / 0x1_0000) % 256, (v / 0x100) % 256, v % 256]
  }

  function GetUint32(b: seq<byte>): nat
    requires |b| == 4
  {
    (b[0] as int) * 0x100_0000 + (b[1] as int) * 0x1_0000 + (b[2] as int) * 0x100 + b[3]
  }

  /** The unrolled forms are the positional ones. */
  lemma PutIsDigits(v: uint64)
    ensures PutUint64(v) == Digits(v, 8)
  {
    var d := v / 256;
    var e := d / 256;
    var f := e / 256;
    var g := f / 256;
    assert e == v / 0x1_0000 && f == v / 0x100_0000 && g == v / 0x1_0000_0000;
    assert Digits(v, 8) == Digits(d, 7) + [v % 256];
    assert Digits(d, 7) == Digits(e, 6) + [d % 256];
    assert Digits(e, 6) == Digits(f, 5) + [e % 256];
    assert Digits(f, 5) == Digits(g, 4) + [f % 256];
    var h := g / 256;
    var i := h / 256;
    var j := i / 256;
    assert h == v / 0x100_0000_0000 && i == v / 0x1_0000_0000_0000 && j == v / 0x100_0000_0000_0000;
    assert Digits(g, 4) == Digits(h, 3) + [g % 256];
    assert Digits(h, 3) == Digits(i, 2) + [h % 256];
    assert Digits(i, 2) == Digits(j, 1) + [i % 256];
    assert Digits(j, 1) == [j % 256];
  }

  lemma Get32IsValue(b: seq<byte>)
    requires |b| == 4
    ensures GetUint32(b) == Value(b)
  {
    FourDigits(b, 0);
    assert b[..4] == b && b[0..4] == b && Value(b[..0]) == 0;
  }

  lemma Put32IsDigits(v: nat)
    requires v < 0x1_0000_0000
    ensures PutUint32(v) == Digits(v, 4)
  {
    var d := v / 256;
    var e := d / 256;
    var f := e / 256;
    assert e == v / 0x1_0000 && f == v / 0x100_0000;
    assert Digits(v, 4) == Digits(d, 3) + [v % 256];
    assert Digits(d, 3) == Digits(e, 2) + [d % 256];
    assert Digits(e, 2) == Digits(f, 1) + [e % 256];
    assert Digits(f, 1) == [f % 256];
  }

  lemma GetIsValue(b: seq<byte>)
    requires |b| == 8
    ensures GetUint64(b) == Value(b)
  {
    FourDigits(b, 0);
    FourDigits(b, 4);
    assert b[..8] == b && Value(b[..0]) == 0;
  }

  /** Four more digits. */
  lemma FourDigits(b: seq<byte>, k: nat)
    requires k + 4 <= |b|
    ensures Value(b[..k + 4]) == Value(b[..k]) * 0x1_0000_0000 + GetUint32(b[k..k + 4])
  {
    NextDigit(b, k);
    NextDigit(b, k + 1);
    NextDigit(b, k + 2);
    NextDigit(b, k + 3);
  }

  lemma NextDigit(b: seq<byte>, k: nat)
    requires k < |b|
    ensures Value(b[..k + 1]) == Value(b[..k]) * 256 + b[k]
  {
    assert b[..k + 1][..k] == b[..k];
  }

  lemma PowerOf8()
    ensures Power(8) == TWO_TO_64
  {
    assert Power(4) == 0x1_0000_0000;
    assert Power(8) == 0x1_0000_0000 * Power(4);
  }

  /** Reading back what was written, and writing back what was read. */
  lemma RoundTrip(v: uint64)
    ensures GetUint64(PutUint64(v)) == v
  {
    PutIsDigits(v);
    GetIsValue(PutUint64(v));
    PowerOf8();
    ValueOfDigits(v, 8);
  }

  lemma RoundTripBack(b: seq<byte>)
    requires |b| == 8
    ensures PutUint64(GetUint64(b)) == b
  {
    GetIsValue(b);
    PutIsDigits(GetUint64(b));
    DigitsOfValue(b);
  }
}
