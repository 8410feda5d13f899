/**
 The generated serializers: field by field encoding of a schema, tag dispatch over the action
 messages, and reading a prefix of a longer message.
 */
module Codec {
  import opened Prelude

  type byte = b: int | 0 <= b < 256

  datatype Kind = I32 | I64 | Str

  datatype Value = Num(n: int) | Text(s: seq<byte>)

  /** What the underlying serializer chooses: the width of a string's length, and the byte order. */
  datatype Format = Format(w: nat, little: bool)

  // ----- integers as bytes -----

  function Pow256(w: nat): (p: nat)
    ensures p > 0
  {
    if w == 0 then 1 else 256 * Pow256(w - 1)
  }

  /** Least significant byte first. */
  function Digits(n: nat, w: nat): (d: seq<byte>)
    ensures |d| == w
  {
    if w == 0 then [] else [n % 256] + Digits(n / 256, w - 1)
  }

  function Number(d: seq<byte>): nat {
    if d == [] then 0 else d[0] + 256 * Number(d[1..])
  }

  function Reverse(d: seq<byte>): (r: seq<byte>)
    ensures |r| == |d|
  {
    seq(|d|, i requires 0 <= i < |d| => d[|d| - 1 - i])
  }

  function ToBytes(f: Format, n: nat, w: nat): (d: seq<byte>)
    ensures |d| == w
  {
    if f.little then Digits(n, w) else Reverse(Digits(n, w))
  }

  function FromBytes(f: Format, d: seq<byte>): nat {
    Number(if f.little then d else Reverse(d))
  }

  /** Two's complement in a word with m values. */
  function Unsigned(i: int, m: nat): nat
    requires -(m as int) <= 2 * i < m
  {
    if i < 0 then i + m else i
  }

  function Signed(n: nat, m: nat): int {
    if 2 * n < m then n else n - m
  }

  lemma {:induction false} NumberOfDigits(n: nat, w: nat)
    requires n < Pow256(w)
    ensures Number(Digits(n, w)) == n
  {
    if w > 0 {
      NumberOfDigits(n / 256, w - 1);
      assert Digits(n, w)[1..] == Digits(n / 256, w - 1);
    }
  }

  lemma LowByte(low: byte, high: nat)
    ensures (low + 256 * high) % 256 == low && (low + 256 * high) / 256 == high
  {
  }

  lemma {:induction false} DigitsOfNumber(d: seq<byte>)
    ensures Number(d) < Pow256(|d|) && Digits(Number(d), |d|) == d
  {
    if d != [] {
      DigitsOfNumber(d[1..]);
      LowByte(d[0], Number(d[1..]));
      assert d == [d[0]] + d[1..];
    }
  }

  lemma ReverseTwice(d: seq<byte>)
    ensures Reverse(Reverse(d)) == d
  {
  }

  lemma BytesRoundTrip(f: Format, n: nat, w: nat)
    requires n < Pow256(w)
    ensures FromBytes(f, ToBytes(f, n, w)) == n
  {
    NumberOfDigits(n, w);
    ReverseTwice(Digits(n, w));
  }

  lemma BytesAreCanonical(f: Format, d: seq<byte>)
    ensures FromBytes(f, d) < Pow256(|d|) && ToBytes(f, FromBytes(f, d), |d|) == d
  {
    DigitsOfNumber(if f.little then d else Reverse(d));
    ReverseTwice(d);
  }

  lemma WordSizes()
    ensures Pow256(4) == 0x1_0000_0000 && Pow256(8) == 0x1_0000_0000_0000_0000
  {
    assert Pow256(2) == 0x1_0000;
    assert Pow256(4) == 0x1_0000_0000;
    assert Pow256(6) == 0x1_0000_0000_0000;
  }

  /** The byte of weight 256^i. */
  lemma {:induction false} DigitIs(n: nat, w: nat, i: nat)
    requires i < w
    ensures Digits(n, w)[i] == n / Pow256(i) % 256
  {
    if i > 0 {
      DigitIs(n / 256, w - 1, i - 1);
      DivideTwice(n, Pow256(i - 1));
    }
  }

  lemma DivideTwice(n: nat, p: nat)
    requires p > 0
    ensures n / 256 / p == n / (256 * p)
  {
    var q, r := n / (256 * p), n % (256 * p);
    assert n == q * (256 * p) + r;
    assert n / 256 == q * p + r / 256 by { WholeBytes(q * p, r); }
    assert r / 256 < p;
    Quotient(q, p, r / 256);
  }

  lemma WholeBytes(a: nat, r: nat)
    ensures (256 * a + r) / 256 == a + r / 256
  {
  }

  lemma Quotient(q: nat, p: nat, r: nat)
    requires r < p
    ensures (q * p + r) / p == q
  {
    var n := q * p + r;
    var d := n / p - q;
    assert d * p == r - n % p by {
      assert n == (n / p) * p + n % p;
      assert (n / p - q) * p == (n / p) * p - q * p;
    }
    WholeMultiples(d, p);
  }

  lemma WholeMultiples(d: int, p: nat)
    ensures d >= 1 ==> d * p >= p
    ensures d <= -1 ==> d * p <= -(p as int)
  {
  }

  /** Where each byte goes: the least significant one first, or last. */
  lemma ByteAt(f: Format, n: nat, w: nat, i: nat)
    requires i < w
    ensures ToBytes(f, n, w)[i] == n / Pow256(if f.little then i else w - 1 - i) % 256
  {
    DigitIs(n, w, if f.little then i else w - 1 - i);
  }

  /** A negative number is written as its residue. */
  lemma TwosComplement(i: int, m: nat)
    requires -(m as int) <= 2 * i < m && m > 0
    ensures Unsigned(i, m) == i % m
  {
  }

  // ----- one field -----

  function Width(k: Kind): nat
    requires !k.Str?
  {
    if k.I32? then 4 else 8
  }

  ghost predicate Fits(f: Format, k: Kind, v: Value) {
    match k
    case Str => v.Text? && |v.s| < Pow256(f.w)
    case _ => v.Num? && -(Pow256(Width(k)) as int) <= 2 * v.n < Pow256(Width(k))
  }

  function EncodeValue(f: Format, k: Kind, v: Value): seq<byte>
    requires Fits(f, k, v)
  {
    match k
    case Str => ToBytes(f, |v.s|, f.w) + v.s
    case _ => ToBytes(f, Unsigned(v.n, Pow256(Width(k))), Width(k))
  }

  datatype Read = Read(v: Value, rest: seq<byte>)

  /** Reading a field; None when the bytes run out. */
  function DecodeValue(f: Format, k: Kind, b: seq<byte>): Option<Read> {
    match k
    case Str =>
      if |b| < f.w then None
      else
        var len := FromBytes(f, b[..f.w]);
        if |b| - f.w < len then None else Some(Read(Text(b[f.w..f.w + len]), b[f.w + len..]))
    case _ =>
      var w := Width(k);
      if |b| < w then None else Some(Read(Num(Signed(FromBytes(f, b[..w]), Pow256(w))), b[w..]))
  }

  lemma ValueRoundTrip(f: Format, k: Kind, v: Value, tail: seq<byte>)
    requires Fits(f, k, v)
    ensures DecodeValue(f, k, EncodeValue(f, k, v) + tail) == Some(Read(v, tail))
  {
    var b := EncodeValue(f, k, v) + tail;
    if k.Str? {
      BytesRoundTrip(f, |v.s|, f.w);
      assert b[..f.w] == ToBytes(f, |v.s|, f.w);
      assert b[f.w..f.w + |v.s|] == v.s && b[f.w + |v.s|..] == tail;
    } else {
      var w := Width(k);
      BytesRoundTrip(f, Unsigned(v.n, Pow256(w)), w);
      assert b[..w] == EncodeValue(f, k, v) && b[w..] == tail;
    }
  }

  lemma SignedRoundTrip(n: nat, m: nat)
    requires n < m && m % 2 == 0
    ensures var i := Signed(n, m); -(m as int) <= 2 * i < m && Unsigned(i, m) == n
  {
  }

  lemma WordIsCanonical(f: Format, k: Kind, b: seq<byte>)
    requires !k.Str? && DecodeValue(f, k, b).Some?
    ensures var r := DecodeValue(f, k, b).value;
            Fits(f, k, r.v) && EncodeValue(f, k, r.v) + r.rest == b
  {
    var w := Width(k);
    BytesAreCanonical(f, b[..w]);
    WordSizes();
    SignedRoundTrip(FromBytes(f, b[..w]), Pow256(w));
    hide FromBytes, ToBytes, Pow256;
    assert b == b[..w] + b[w..];
  }

  lemma TextIsCanonical(f: Format, b: seq<byte>)
    requires DecodeValue(f, Str, b).Some?
    ensures var r := DecodeValue(f, Str, b).value;
            Fits(f, Str, r.v) && EncodeValue(f, Str, r.v) + r.rest == b
  {
    hide FromBytes, ToBytes, Pow256;
    BytesAreCanonical(f, b[..f.w]);
    InThree(b, f.w, FromBytes(f, b[..f.w]));
  }

  lemma InThree(b: seq<byte>, w: nat, n: nat)
    requires w + n <= |b|
    ensures b[..w] + b[w..w + n] + b[w + n..] == b
  {
  }

  lemma ValueIsCanonical(f: Format, k: Kind, b: seq<byte>)
    requires DecodeValue(f, k, b).Some?
    ensures var r := DecodeValue(f, k, b).value;
            Fits(f, k, r.v) && EncodeValue(f, k, r.v) + r.rest == b
  {
    if k.Str? {
      TextIsCanonical(f, b);
    } else {
      WordIsCanonical(f, k, b);
    }
  }

  /** A string is its length followed by its bytes as they are; an integer fills its word. */
  lemma ValueLayout(f: Format, k: Kind, v: Value)
    requires Fits(f, k, v)
    ensures var b := EncodeValue(f, k, v);
            if k.Str? then
              && |b| == f.w + |v.s| && b[f.w..] == v.s
              && forall i | 0 <= i < f.w :: b[i] == |v.s| / Pow256(if f.little then i else f.w - 1 - i) % 256
            else
              && |b| == Width(k)
              && forall i | 0 <= i < |b| ::
                   b[i] == v.n % Pow256(|b|) / Pow256(if f.little then i else |b| - 1 - i) % 256
  {
    var b := EncodeValue(f, k, v);
    if k.Str? {
      forall i | 0 <= i < f.w
        ensures b[i] == |v.s| / Pow256(if f.little then i else f.w - 1 - i) % 256
      {
        ByteAt(f, |v.s|, f.w, i);
      }
    } else {
      TwosComplement(v.n, Pow256(|b|));
      forall i | 0 <= i < |b|
        ensures b[i] == v.n % Pow256(|b|) / Pow256(if f.little then i else |b| - 1 - i) % 256
      {
        ByteAt(f, Unsigned(v.n, Pow256(|b|)), |b|, i);
      }
    }
  }

  // ----- the fields of a message -----

  ghost predicate AllFit(f: Format, fields: seq<Kind>, vs: seq<Value>) {
    |vs| == |fields| && forall i | 0 <= i < |fields| :: Fits(f, fields[i], vs[i])
  }

  function Encode(f: Format, fields: seq<Kind>, vs: seq<Value>): seq<byte>
    requires AllFit(f, fields, vs)
  {
    if fields == [] then []
    else EncodeValue(f, fields[0], vs[0]) + Encode(f, fields[1..], vs[1..])
  }

  datatype Fields = Fields(vs: seq<Value>, rest: seq<byte>)

  function Decode(f: Format, fields: seq<Kind>, b: seq<byte>): Option<Fields> {
    if fields == [] then Some(Fields([], b))
    else match DecodeValue(f, fields[0], b)
         case None => None
         case Some(r) =>
           match Decode(f, fields[1..], r.rest)
           case None => None
           case Some(more) => Some(Fields([r.v] + more.vs, more.rest))
  }

  /** Decoding an encoding gives the fields back and leaves what follows untouched. */
  lemma {:induction false} RoundTrip(f: Format, fields: seq<Kind>, vs: seq<Value>, tail: seq<byte>)
    requires AllFit(f, fields, vs)
    ensures Decode(f, fields, Encode(f, fields, vs) + tail) == Some(Fields(vs, tail))
  {
    hide Fits, EncodeValue, DecodeValue;
    if fields == [] {
      assert [] + tail == tail;
    } else {
      var rest := Encode(f, fields[1..], vs[1..]) + tail;
      assert Encode(f, fields, vs) + tail == EncodeValue(f, fields[0], vs[0]) + rest;
      ValueRoundTrip(f, fields[0], vs[0], rest);
      RoundTrip(f, fields[1..], vs[1..], tail);
      assert vs == [vs[0]] + vs[1..];
    }
  }

  /** Conversely, whatever decodes is the encoding of what it decodes to. */
  lemma {:induction false} Canonical(f: Format, fields: seq<Kind>, b: seq<byte>)
    requires Decode(f, fields, b).Some?
    ensures var r := Decode(f, fields, b).value;
            AllFit(f, fields, r.vs) && Encode(f, fields, r.vs) + r.rest == b
  {
    hide Fits, EncodeValue, DecodeValue;
    var r := Decode(f, fields, b).value;
    if fields == [] {
      assert [] + b == b;
    } else {
      var head := DecodeValue(f, fields[0], b).value;
      ValueIsCanonical(f, fields[0], b);
      Canonical(f, fields[1..], head.rest);
      assert r.vs[1..] == Decode(f, fields[1..], head.rest).value.vs;
      assert Encode(f, fields, r.vs) + r.rest
          == EncodeValue(f, fields[0], head.v) + (Encode(f, fields[1..], r.vs[1..]) + r.rest);
    }
  }

  lemma {:induction false} EncodeAppend(f: Format, a: seq<Kind>, b: seq<Kind>, va: seq<Value>, vb: seq<Value>)
    requires AllFit(f, a, va) && AllFit(f, b, vb)
    ensures AllFit(f, a + b, va + vb)
    ensures Encode(f, a + b, va + vb) == Encode(f, a, va) + Encode(f, b, vb)
  {
    hide Fits, EncodeValue;
    if a == [] {
      assert a + b == b && va + vb == vb;
    } else {
      EncodeAppend(f, a[1..], b, va[1..], vb);
      assert (a + b)[1..] == a[1..] + b && (va + vb)[1..] == va[1..] + vb;
    }
  }

  lemma SplitFits(f: Format, a: seq<Kind>, b: seq<Kind>, vs: seq<Value>)
    requires AllFit(f, a + b, vs)
    ensures AllFit(f, a, vs[..|a|]) && AllFit(f, b, vs[|a|..])
  {
    hide Fits;
    forall i | 0 <= i < |a|
      ensures Fits(f, a[i], vs[..|a|][i])
    {
      assert (a + b)[i] == a[i];
    }
    forall i | 0 <= i < |b|
      ensures Fits(f, b[i], vs[|a|..][i])
    {
      assert (a + b)[|a| + i] == b[i];
    }
  }

  /** A message reads as any shorter message whose fields it starts with. */
  lemma PrefixDecoding(f: Format, a: seq<Kind>, b: seq<Kind>, vs: seq<Value>)
    requires AllFit(f, a + b, vs)
    ensures Decode(f, a, Encode(f, a + b, vs)) ==
              Some(Fields(vs[..|a|], Encode(f, b, vs[|a|..])))
  {
    var va, vb := vs[..|a|], vs[|a|..];
    SplitFits(f, a, b, vs);
    hide AllFit, Encode, Decode;
    assert va + vb == vs;
    EncodeAppend(f, a, b, va, vb);
    RoundTrip(f, a, va, Encode(f, b, vb));
  }
}
