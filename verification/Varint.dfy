// The leading-1-bits variable-length integer of draft-ietf-moq-transport-18,
// section 1.4.1.
module Varint {
  import opened Bytes
  import opened Input

  // ---------- the format ----------
  // An encoding of n bytes starts with a byte in [Tag(n), Tag(n) + Room(n)):
  // n - 1 one bits (a zero bit after them unless n is 9), then the most
  // significant bits of the value. The other n - 1 bytes hold the rest of it.

  function Tag(n: nat): byte
    requires 1 <= n <= 9
  {
    match n
    case 1 => 0
    case 2 => 0x80
    case 3 => 0xC0
    case 4 => 0xE0
    case 5 => 0xF0
    case 6 => 0xF8
    case 7 => 0xFC
    case 8 => 0xFE
    case _ => 0xFF
  }

  function Room(n: nat): byte
    requires 1 <= n <= 9
  {
    match n
    case 1 => 128
    case 2 => 64
    case 3 => 32
    case 4 => 16
    case 5 => 8
    case 6 => 4
    case 7 => 2
    case _ => 1
  }

  /** n bytes hold exactly the values below this. */
  function Capacity(n: nat): nat
    requires 1 <= n <= 9
  {
    Room(n) * Pow256(n - 1)
  }

  /** The number of bytes AppendVarint uses. */
  function Size(x: uint64): (n: nat)
    ensures 1 <= n <= 9
  {
    if x <= 0x7F then 1
    else if x <= 0x3FFF then 2
    else if x <= 0x1FFFFF then 3
    else if x <= 0x0FFFFFFF then 4
    else if x <= 0x07FFFFFFFF then 5
    else if x <= 0x03FFFFFFFFFF then 6
    else if x <= 0x01FFFFFFFFFFFF then 7
    else if x <= 0x00FFFFFFFFFFFFFF then 8
    else 9
  }

  /** The size is the least number of bytes that can hold the value. */
  lemma SizeIsLeast(x: uint64, n: nat)
    requires 1 <= n <= 9
    ensures x < Capacity(n) <==> Size(x) <= n
  {
    assert Pow256(0) == 1 && Pow256(1) == 0x100 && Pow256(2) == 0x1_0000 && Pow256(3) == 0x100_0000;
    assert Pow256(4) == 0x1_0000_0000 && Pow256(5) == 0x100_0000_0000 && Pow256(6) == 0x1_0000_0000_0000;
    assert Pow256(7) == 0x100_0000_0000_0000 && Pow256(8) == TWO_64;
    assert n == 1 || n == 2 || n == 3 || n == 4 || n == 5 || n == 6 || n == 7 || n == 8 || n == 9;
  }

  /** The total length that a first byte announces. */
  function Length(first: byte): (n: nat)
    ensures 1 <= n <= 9
    ensures Tag(n) <= first < Tag(n) + Room(n)
  {
    1 + LeadingZeros8(Not8(first))
  }

  lemma LengthOf(n: nat, x: nat)
    requires 1 <= n <= 9 && x < Room(n)
    ensures Tag(n) + x < 0x100 && Length(Tag(n) + x) == n
  {}

  /** The shortest encoding of v: its digits, tagged in the first one. */
  function Encode(v: uint64): (s: seq<byte>)
    ensures |s| == Size(v) == Length(s[0])
  {
    var d := ToBytes(v, Size(v));
    FirstDigitFits(v, Size(v));
    LengthOf(Size(v), d[0]);
    [Tag(Size(v)) + d[0]] + d[1..]
  }

  /** There is room for the first of n digits below the tag. */
  lemma FirstDigitFits(v: uint64, n: nat)
    requires 1 <= n <= 9 && Size(v) <= n
    ensures FromBytes(ToBytes(v, n)) == v
    ensures ToBytes(v, n)[0] < Room(n)
    ensures v / Pow256(n - 1) == ToBytes(v, n)[0]
  {
    SizeIsLeast(v, n);
    CapacityMax(n);
    FromToBytes(v, n);
    var d, p := ToBytes(v, n), Pow256(n - 1);
    assert d == [d[0]] + d[1..];
    FromBytesCons(d[0], d[1..]);
    FromBytesBound(d[1..]);
    DivOf(v, p, d[0], FromBytes(d[1..]));
    FactorBelow(d[0], Room(n), p, FromBytes(d[1..]));
  }

  lemma FactorBelow(x: nat, y: nat, p: nat, r: nat)
    requires x * p + r < y * p
    ensures x < y
  {
    if x > y { MulStep(y, x, p); }
  }

  lemma DivOf(v: nat, p: nat, x: nat, r: nat)
    requires r < p && v == x * p + r
    ensures v / p == x
  {
    var y := v / p;
    assert v == y * p + v % p;
    if y < x { MulStep(y, x, p); }
    if x < y { MulStep(x, y, p); }
  }

  lemma CapacityMax(n: nat)
    requires 1 <= n <= 9
    ensures Capacity(n) <= TWO_64 && Capacity(n) <= Pow256(n)
  {
    assert Pow256(8) == TWO_64;
    assert n == 1 || n == 2 || n == 3 || n == 4 || n == 5 || n == 6 || n == 7 || n == 8 || n == 9;
  }

  /** The value of a complete encoding: its digits without the tag. */
  function Value(e: seq<byte>): (v: uint64)
    requires IsEncoding(e)
    ensures Size(v) <= |e|
  {
    ValueBound(e);
    FromBytes([e[0] - Tag(|e|)] + e[1..])
  }

  lemma ValueBound(e: seq<byte>)
    requires IsEncoding(e)
    ensures FromBytes([e[0] - Tag(|e|)] + e[1..]) < Capacity(|e|) <= TWO_64
    ensures Size(FromBytes([e[0] - Tag(|e|)] + e[1..])) <= |e|
  {
    var n, x := |e|, e[0] - Tag(|e|);
    FromBytesCons(x, e[1..]);
    FromBytesBound(e[1..]);
    MulStep(x, Room(n), Pow256(n - 1));
    CapacityMax(n);
    SizeIsLeast(FromBytes([x] + e[1..]), n);
  }

  /** s is one complete encoding and nothing else. */
  predicate IsEncoding(s: seq<byte>)
  {
    s != [] && |s| == Length(s[0])
  }

  /** Reading one varint from the front of a stream: the first byte is one
      read, the remaining bytes, if any, another. */
  function Read(s: seq<byte>): (p: Parse<uint64>)
    ensures p.Got? ==> |p.rest| < |s|
  {
    if s == [] then Fail(EOF)
    else
      var n := Length(s[0]);
      if n == 1 then Got(s[0], s[1..])
      else
        match Take(s[1..], n - 1)
        case Fail(e) => Fail(e)
        case Got(bytes, rest) => Got(Value([s[0]] + bytes), rest)
  }

  // ---------- the code ----------

  method AppendVarint(b: seq<byte>, v: uint64) returns (r: seq<byte>)
    ensures r == b + Encode(v)
  {
    hide Encode, ToBytes, Pow2, Or;
    var n := Size(v);
    EncodeParts(v);
    match n
    case 1 =>
      assert Pow256(0) == 1;
      r := b + [v];
    case 9 =>
      r := b + [0xFF];
      var tmp := ToBytes(v, 8);
      r := r + tmp;
    case _ =>
      var firstData := v / Pow256(n - 1);
      var mask := Pow2(9 - n) - 1;
      TagByte(n, firstData);
      var tag := (0xFFFF - mask) % 0x100;
      r := b + [Or(tag, firstData)];
      var tmp := ToBytes(v, 8);
      ToBytesLow(v, 8, n - 1);
      r := r + tmp[8 - (n - 1)..];
  }

  /** The encoding as the code builds it: a byte, then the low-order digits. */
  lemma EncodeParts(v: uint64)
    ensures 0 <= v / Pow256(Size(v) - 1) < Room(Size(v))
    ensures Encode(v) == [Tag(Size(v)) + v / Pow256(Size(v) - 1)] + ToBytes(v, Size(v) - 1)
  {
    FirstDigitFits(v, Size(v));
    ToBytesLow(v, Size(v), Size(v) - 1);
  }

  /** The complement of the mask, cut to 8 bits, is the tag; or-ing adds it. */
  lemma TagByte(n: nat, x: nat)
    requires 2 <= n <= 8 && x < Room(n)
    ensures 1 <= Pow2(9 - n) <= 128
    ensures (0xFFFF - (Pow2(9 - n) - 1)) % 0x100 == Tag(n)
    ensures Or(Tag(n), x) == Tag(n) + x
  {
    assert Pow2(0) == 1 && Pow2(1) == 2 && Pow2(2) == 4 && Pow2(3) == 8 && Pow2(4) == 16;
    assert Pow2(5) == 32 && Pow2(6) == 64 && Pow2(7) == 128;
    assert n == 2 || n == 3 || n == 4 || n == 5 || n == 6 || n == 7 || n == 8;
    assert Room(n) == Pow2(8 - n);
    assert Tag(n) == (Pow2(n) - 2) * Pow2(8 - n);
    OrDisjoint(Pow2(n) - 2, x, 8 - n);
  }

  method DecodeVarintBytes(first: byte, rest: seq<byte>, extra: nat) returns (v: uint64)
    requires extra == |rest| == Length(first) - 1
    ensures v == Value([first] + rest)
  {
    hide Value, FromBytes;
    ghost var e := [first] + rest;
    assert e[1..] == rest;
    match extra
    case 0 =>
      OneByte(e);
      v := And(first, 0x7F);
    case 8 =>
      EightDigits(e);
      v := FromBytes(rest);
    case 7 =>
      var buf := new byte[8](i => 0);
      Copy(buf, 1, rest);
      Padded(e, 0);
      assert buf[..] == seq(0, i => 0) + ([first - Tag(8)] + rest);
      v := FromBytes(buf[..]);
    case _ =>
      var n := extra;
      var mask := 0xFF / Pow2(n + 1);
      LowBits(first);
      var buf := new byte[8](i => 0);
      buf[8 - 1 - n] := And(first, mask);
      Copy(buf, 8 - n, rest);
      Padded(e, 7 - n);
      assert buf[..] == seq(7 - n, i => 0) + ([first - Tag(n + 1)] + rest);
      v := FromBytes(buf[..]);
  }

  /** copy(buf[at:], src), when src fits. */
  method Copy(buf: array<byte>, at: nat, src: seq<byte>)
    requires at + |src| <= buf.Length
    modifies buf
    ensures buf[..] == old(buf[..at]) + src + old(buf[at + |src|..])
  {
    forall i | 0 <= i < |src| { buf[at + i] := src[i]; }
  }

  lemma EightDigits(e: seq<byte>)
    requires IsEncoding(e) && |e| == 9
    ensures FromBytes(e[1..]) == Value(e)
  {
    FromBytesZeros(1, e[1..]);
    assert [e[0] - Tag(9)] + e[1..] == seq(1, i => 0) + e[1..];
  }

  /** The zero-padded buffer reads as the value. */
  lemma Padded(e: seq<byte>, k: nat)
    requires IsEncoding(e)
    ensures FromBytes(seq(k, i => 0) + ([e[0] - Tag(|e|)] + e[1..])) == Value(e)
  {
    FromBytesZeros(k, [e[0] - Tag(|e|)] + e[1..]);
  }

  lemma OneByte(e: seq<byte>)
    requires IsEncoding(e) && |e| == 1
    ensures And(e[0], 0x7F) == e[0] == Value(e)
  {
    hide And;
    assert Pow2(7) == 128;
    AndMask(0, e[0], 7);
    assert [e[0] - Tag(1)] + e[1..] == [e[0]];
    assert FromBytes([e[0]]) == FromBytes([]) * 256 + e[0];
  }

  /** The mask strips the tag from the first byte. */
  lemma LowBits(first: byte)
    requires Length(first) <= 7
    ensures And(first, 0xFF / Pow2(Length(first))) == first - Tag(Length(first))
  {
    var n := Length(first);
    assert Pow2(0) == 1 && Pow2(1) == 2 && Pow2(2) == 4 && Pow2(3) == 8 && Pow2(4) == 16;
    assert Pow2(5) == 32 && Pow2(6) == 64 && Pow2(7) == 128;
    assert n == 1 || n == 2 || n == 3 || n == 4 || n == 5 || n == 6 || n == 7;
    assert Room(n) == Pow2(8 - n);
    assert 0xFF / Pow2(n) == Pow2(8 - n) - 1;
    assert Tag(n) == (Pow2(n) - 2) * Pow2(8 - n);
    AndMask(Pow2(n) - 2, first - Tag(n), 8 - n);
  }

  /** The value and the number of bytes consumed; (0, 0) with an error. */
  method ParseVarint(b: seq<byte>) returns (value: uint64, n: nat, err: Option<Error>)
    ensures err == match Read(b) case Got(_, _) => None case Fail(_) => Some(UnexpectedEOF)
    ensures match Read(b)
            case Got(v, rest) => value == v && n <= |b| && rest == b[n..]
            case Fail(_) => value == 0 && n == 0
  {
    if |b| == 0 {
      return 0, 0, Some(UnexpectedEOF);
    }
    var first := b[0];
    var extra := LeadingZeros8(Not8(first));
    var total := 1 + extra;
    if |b| < total {
      return 0, 0, Some(UnexpectedEOF);
    }
    assert b[1..][..extra] == b[1..total] && b[1..][extra..] == b[total..];
    assert Pow256(0) == 1;
    value := DecodeVarintBytes(first, b[1..total], extra);
    return value, total, None;
  }

  method ReadVarint(r: Reader) returns (res: Result<uint64>)
    requires r.Valid()
    modifies r`pos
    ensures Agrees(res, Read(old(r.Rest())), r)
  {
    ghost var s := r.Rest();
    var firstRes := r.ReadFull(1);
    if firstRes.Err? {
      return Err(firstRes.error);
    }
    var first := firstRes.value[0];
    var extra := LeadingZeros8(Not8(first));
    if extra == 0 {
      OneByte([first]);
      return Ok(And(first, 0x7F));
    }
    var rest := r.ReadFull(extra);
    if rest.Err? {
      return Err(rest.error);
    }
    var v := DecodeVarintBytes(first, rest.value, extra);
    return Ok(v);
  }

  // ---------- what the format promises ----------

  lemma ValueOfEncode(v: uint64)
    ensures IsEncoding(Encode(v)) && Value(Encode(v)) == v
  {
    var d := ToBytes(v, Size(v));
    FirstDigitFits(v, Size(v));
    assert d == [d[0]] + d[1..];
  }

  /** Decoding undoes encoding and stops exactly at its end. */
  lemma RoundTrip(v: uint64, suffix: seq<byte>)
    ensures Read(Encode(v) + suffix) == Got(v, suffix)
  {
    ValueOfEncode(v);
    ReadSplits(Encode(v), suffix);
  }

  /** A complete encoding followed by anything reads as its value. */
  lemma ReadSplits(e: seq<byte>, suffix: seq<byte>)
    requires IsEncoding(e)
    ensures Read(e + suffix) == Got(Value(e), suffix)
  {
    var s := e + suffix;
    assert e == [e[0]] + e[1..];
    if |e| == 1 {
      assert s[1..] == suffix;
    } else {
      assert s[1..][..|e| - 1] == e[1..] && s[1..][|e| - 1..] == suffix;
    }
  }

  /** What a successful read consumed is one complete encoding. */
  lemma ReadConsumes(s: seq<byte>) returns (e: seq<byte>)
    requires Read(s).Got?
    ensures IsEncoding(e) && s == e + Read(s).rest && Read(s).value == Value(e)
  {
    e := s[..Length(s[0])];
    ReadSplits(e, s[|e|..]);
    assert s == e + s[|e|..];
  }

  /** More input behind a readable varint changes nothing. */
  lemma ReadExtends(s: seq<byte>, t: seq<byte>)
    requires Read(s).Got?
    ensures Read(s + t) == Got(Read(s).value, Read(s).rest + t)
  {
    var e := ReadConsumes(s);
    assert s + t == e + (Read(s).rest + t);
    ReadSplits(e, Read(s).rest + t);
  }

  /** Encode(v) is the shortest string that decodes to v, and the only one of
      its length. */
  lemma ShortestIsUnique(e: seq<byte>, v: uint64)
    requires Read(e) == Got(v, [])
    ensures |e| >= |Encode(v)|
    ensures |e| == |Encode(v)| ==> e == Encode(v)
  {
    hide Read, Value, Encode;
    var c := ReadConsumes(e);
    assert c + [] == c;
    if |e| == Size(v) { MinimalIsEncode(e); }
  }

  lemma MinimalIsEncode(e: seq<byte>)
    requires IsEncoding(e) && |e| == Size(Value(e))
    ensures e == Encode(Value(e))
  {
    var d := [e[0] - Tag(|e|)] + e[1..];
    ToFromBytes(d);
    assert e == [e[0]] + e[1..] && d[1..] == e[1..];
  }

  /** Byte-string order of the encodings is the order of the values. */
  lemma OrderPreserved(v: uint64, w: uint64)
    ensures v < w <==> LexLess(Encode(v), Encode(w))
  {
    var a, b := Encode(v), Encode(w);
    if Size(v) == Size(w) {
      // the same tag on both: dropping it changes neither order
      var c, d := ToBytes(v, Size(v)), ToBytes(w, Size(v));
      FirstDigitFits(v, Size(v));
      FirstDigitFits(w, Size(v));
      assert a[1..] == c[1..] && b[1..] == d[1..];
      LexIsNumeric(c, d);
    } else {
      SizeIsLeast(v, Size(w));
      SizeIsLeast(w, Size(v));
    }
  }

  /** No complete encoding is a proper prefix of another. */
  lemma PrefixFree(a: seq<byte>, b: seq<byte>, x: seq<byte>, y: seq<byte>)
    requires IsEncoding(a) && IsEncoding(b) && a + x == b + y
    ensures a == b && x == y
  {
    assert a[0] == (a + x)[0] == b[0];
    assert a == (a + x)[..|a|] == b;
    assert x == (a + x)[|a|..] == y;
  }

  /** A concatenation of encodings, minimal or not, splits in one way only. */
  lemma {:induction false} SplitsOneWay(xs: seq<seq<byte>>, ys: seq<seq<byte>>)
    requires forall e :: e in xs || e in ys ==> IsEncoding(e)
    requires Concat(xs) == Concat(ys)
    ensures xs == ys
  {
    assert xs != [] ==> IsEncoding(xs[0]);
    assert ys != [] ==> IsEncoding(ys[0]);
    if xs != [] && ys != [] {
      PrefixFree(xs[0], ys[0], Concat(xs[1..]), Concat(ys[1..]));
      SplitsOneWay(xs[1..], ys[1..]);
    }
  }
}
