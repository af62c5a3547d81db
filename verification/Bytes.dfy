// Bytes, machine integers and big-endian numbers: the vocabulary of the wire format.
module Bytes {

  const TWO_64: nat := 0x1_0000_0000_0000_0000

  type byte = x: int | 0 <= x < 0x100

  type uint64 = x: int | 0 <= x < 0x1_0000_0000_0000_0000

  /** A byte slice held in memory: its length converts to a uint64. */
  type Slice = s: seq<byte> | |s| < 0x1_0000_0000_0000_0000

  datatype Option<+T> = None | Some(value: T)

  datatype Result<+T> = Ok(value: T) | Err(error: Error)

  /** EOF and UnexpectedEOF are the two end-of-input errors of io.ReadFull;
      the others are the errors made by the decoders and encoders themselves. */
  datatype Error =
    | EOF
    | UnexpectedEOF
    | TypesNotIncreasing
    | EvenOptionNotVarint
    | DeltaOverflow
    | LengthExceedsPayload
    | PayloadTooLarge
    | TooManyNamespaceFields
    | EmptyNamespaceField
    | NamespaceTooLong
    | NotSubgroupType
    | ReasonTooLong
    | WriteFailed

  /** Unsigned 64-bit addition wraps. */
  function Add64(a: uint64, b: uint64): uint64
  {
    if a + b < TWO_64 then a + b else a + b - TWO_64
  }

  /** Adding to a wrapped number is adding and then wrapping. */
  lemma AddWrapped(a: nat, b: uint64)
    ensures Add64(a % TWO_64, b) == (a + b) % TWO_64
  {}

  // ---------- bit operators ----------

  function Pow2(k: nat): (p: nat)
    ensures p >= 1
  {
    if k == 0 then 1 else 2 * Pow2(k - 1)
  }

  /** Bitwise or. */
  function Or(a: nat, b: nat): nat
    decreases a + b
  {
    if a == 0 && b == 0 then 0
    else 2 * Or(a / 2, b / 2) + (if a % 2 == 1 || b % 2 == 1 then 1 else 0)
  }

  /** Bitwise and. */
  function And(a: nat, b: nat): nat
    decreases a + b
  {
    if a == 0 || b == 0 then 0
    else 2 * And(a / 2, b / 2) + (if a % 2 == 1 && b % 2 == 1 then 1 else 0)
  }

  /** Bitwise complement of an 8-bit value. */
  function Not8(a: byte): byte { 0xFF - a }

  /** The number of leading zero bits of an 8-bit value. */
  function LeadingZeros8(x: byte): (n: nat)
    ensures n <= 8
  {
    if x >= 0x80 then 0 else if x >= 0x40 then 1 else if x >= 0x20 then 2 else if x >= 0x10 then 3
    else if x >= 8 then 4 else if x >= 4 then 5 else if x >= 2 then 6 else if x >= 1 then 7 else 8
  }

  /** Or-ing a value with high bits only and a value with low bits only adds them. */
  lemma {:induction false} OrDisjoint(hi: nat, lo: nat, j: nat)
    requires lo < Pow2(j)
    ensures Or(hi * Pow2(j), lo) == hi * Pow2(j) + lo
  {
    if j == 0 {
      OrZero(hi);
    } else {
      OrDisjoint(hi, lo / 2, j - 1);
      TwiceTimes(hi, Pow2(j - 1));
    }
  }

  lemma {:induction false} OrZero(a: nat)
    ensures Or(a, 0) == a
  {
    if a != 0 { OrZero(a / 2); }
  }

  /** Masking with j ones keeps exactly the j low bits. */
  lemma {:induction false} AndMask(hi: nat, lo: nat, j: nat)
    requires lo < Pow2(j)
    ensures And(hi * Pow2(j) + lo, Pow2(j) - 1) == lo
    decreases j
  {
    hide And;
    if j == 0 {
      AndZero(hi * Pow2(j) + lo);
    } else {
      AndMask(hi, lo / 2, j - 1);
      AndTwice(hi * Pow2(j - 1), lo, Pow2(j - 1));
      TwiceTimes(hi, Pow2(j - 1));
    }
  }

  lemma AndTwice(a: nat, lo: nat, p: nat)
    requires p >= 1 && And(a + lo / 2, p - 1) == lo / 2
    ensures And(2 * a + lo, 2 * p - 1) == lo
  {
    hide And;
    AndStep(2 * a + lo, 2 * p - 1);
  }

  lemma TwiceTimes(hi: nat, p: nat)
    ensures hi * (2 * p) == 2 * (hi * p)
  {}

  lemma AndZero(a: nat)
    ensures And(a, 0) == 0
  {}

  lemma AndStep(a: nat, b: nat)
    ensures And(a, b) == 2 * And(a / 2, b / 2) + (if a % 2 == 1 && b % 2 == 1 then 1 else 0)
  {}

  // ---------- big-endian numbers ----------

  function Pow256(k: nat): (p: nat)
    ensures p >= 1
  {
    if k == 0 then 1 else 256 * Pow256(k - 1)
  }

  /** The k low-order bytes of v, most significant first. */
  function ToBytes(v: nat, k: nat): (s: seq<byte>)
    ensures |s| == k
  {
    if k == 0 then [] else ToBytes(v / 256, k - 1) + [v % 256]
  }

  /** The number whose big-endian digits are s. */
  function FromBytes(s: seq<byte>): nat
  {
    if |s| == 0 then 0 else FromBytes(s[..|s| - 1]) * 256 + s[|s| - 1]
  }

  lemma {:induction false} FromBytesBound(s: seq<byte>)
    ensures FromBytes(s) < Pow256(|s|)
  {
    if |s| != 0 { FromBytesBound(s[..|s| - 1]); }
  }

  lemma {:induction false} FromToBytes(v: nat, k: nat)
    requires v < Pow256(k)
    ensures FromBytes(ToBytes(v, k)) == v
  {
    if k != 0 {
      FromToBytes(v / 256, k - 1);
      assert ToBytes(v, k)[..k - 1] == ToBytes(v / 256, k - 1);
    }
  }

  lemma {:induction false} ToFromBytes(s: seq<byte>)
    ensures ToBytes(FromBytes(s), |s|) == s
  {
    hide ToBytes;
    if |s| == 0 {
      assert ToBytes(0, 0) == [];
    } else {
      var front, b := s[..|s| - 1], s[|s| - 1];
      ToFromBytes(front);
      ToBytesStep(FromBytes(front), b, |front|);
      assert s == front + [b];
    }
  }

  lemma ToBytesStep(v: nat, b: byte, k: nat)
    ensures ToBytes(v * 256 + b, k + 1) == ToBytes(v, k) + [b]
  {}

  /** The last j of k digits are the j low-order digits. */
  lemma {:induction false} ToBytesLow(v: nat, k: nat, j: nat)
    requires j <= k
    ensures ToBytes(v, k)[k - j..] == ToBytes(v, j)
  {
    if j != 0 {
      ToBytesLow(v / 256, k - 1, j - 1);
      assert ToBytes(v, k)[k - j..] == ToBytes(v / 256, k - 1)[k - j..] + [v % 256];
    }
  }

  lemma Times256(b: nat, p: nat)
    ensures b * (256 * p) == 256 * (b * p)
  {}

  lemma {:induction false} FromBytesCons(b: byte, s: seq<byte>)
    ensures FromBytes([b] + s) == b * Pow256(|s|) + FromBytes(s)
  {
    if |s| == 0 {
      assert FromBytes([b]) == FromBytes([]) * 256 + b;
      assert [b] + s == [b];
    } else {
      var t := s[..|s| - 1];
      FromBytesCons(b, t);
      assert ([b] + s)[..|s|] == [b] + t;
      Times256(b, Pow256(|t|));
    }
  }

  /** Leading zero digits do not count. */
  lemma {:induction false} FromBytesZeros(k: nat, s: seq<byte>)
    ensures FromBytes(seq(k, i => 0) + s) == FromBytes(s)
  {
    if k == 0 {
      assert seq(k, i => 0) + s == s;
    } else {
      FromBytesZeros(k - 1, s);
      assert seq(k, i => 0) + s == [0] + (seq(k - 1, i => 0) + s);
      FromBytesCons(0, seq(k - 1, i => 0) + s);
    }
  }

  /** Dictionary order on byte strings; a proper prefix comes first. */
  predicate LexLess(a: seq<byte>, b: seq<byte>)
  {
    b != [] && (a == [] || a[0] < b[0] || (a[0] == b[0] && LexLess(a[1..], b[1..])))
  }

  /** For strings of one length, dictionary order is numeric order. */
  lemma {:induction false} LexIsNumeric(a: seq<byte>, b: seq<byte>)
    requires |a| == |b|
    ensures LexLess(a, b) <==> FromBytes(a) < FromBytes(b)
  {
    if a != [] {
      var p := Pow256(|a| - 1);
      assert a == [a[0]] + a[1..] && b == [b[0]] + b[1..];
      FromBytesCons(a[0], a[1..]);
      FromBytesCons(b[0], b[1..]);
      FromBytesBound(a[1..]);
      FromBytesBound(b[1..]);
      LexIsNumeric(a[1..], b[1..]);
      if a[0] < b[0] { MulStep(a[0], b[0], p); }
      if b[0] < a[0] { MulStep(b[0], a[0], p); }
    }
  }

  lemma {:induction false} MulStep(x: nat, y: nat, p: nat)
    requires x < y
    ensures x * p + p <= y * p
    decreases y
  {
    assert (y - 1) * p == y * p - p;
    if x + 1 < y { MulStep(x, y - 1, p); }
  }

  function Concat<T>(parts: seq<seq<T>>): seq<T>
  {
    if parts == [] then [] else parts[0] + Concat(parts[1..])
  }

  lemma {:induction false} ConcatAppend<T>(a: seq<seq<T>>, b: seq<seq<T>>)
    ensures Concat(a + b) == Concat(a) + Concat(b)
  {
    if a == [] {
      assert a + b == b;
    } else {
      assert (a + b)[1..] == a[1..] + b;
      ConcatAppend(a[1..], b);
    }
  }

  /** The items already produced, in front of the outcome for the remaining ones. */
  function Prepend<T>(out: seq<T>, res: Result<seq<T>>): Result<seq<T>>
  {
    match res
    case Err(e) => Err(e)
    case Ok(rest) => Ok(out + rest)
  }

  lemma PrependNothing<T>(res: Result<seq<T>>)
    ensures Prepend([], res) == res
  {
    if res.Ok? { assert [] + res.value == res.value; }
  }

  lemma PrependTwice<T>(a: seq<T>, b: seq<T>, res: Result<seq<T>>)
    ensures Prepend(a, Prepend(b, res)) == Prepend(a + b, res)
  {
    if res.Ok? { assert a + (b + res.value) == a + b + res.value; }
  }
}
