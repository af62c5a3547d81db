// Decoding and re-encoding key-value pairs: the canonical form of a payload.
module Canonical {
  import opened Bytes
  import opened KeyValue
  import Varint

  /** The type deltas as they stand on the wire. */
  function Deltas(prev: uint64, s: seq<byte>): (ds: seq<uint64>)
    requires DecodeFrom(prev, s).Ok?
    ensures |ds| == |DecodeFrom(prev, s).value|
    decreases |s|
  {
    if s == [] then []
    else
      var pair := DecodePair(prev, s);
      [Varint.Read(s).value] + Deltas(pair.value.typ, pair.rest)
  }

  /** Unbounded sum. */
  function Sum(ds: seq<uint64>): nat
  {
    if ds == [] then 0 else ds[0] + Sum(ds[1..])
  }

  /** Every decoded type is the sum of the deltas up to it, as an unbounded
      number: the overflow check leaves no room for wrapping. */
  lemma {:induction false} TypesAreSums(prev: uint64, s: seq<byte>, k: nat)
    requires DecodeFrom(prev, s).Ok? && k < |DecodeFrom(prev, s).value|
    ensures DecodeFrom(prev, s).value[k].typ == prev + Sum(Deltas(prev, s)[..k + 1])
    decreases k
  {
    hide Varint.Read;
    var pair := DecodePair(prev, s);
    var ps, ds := DecodeFrom(prev, s).value, Deltas(prev, s);
    var rest := DecodeFrom(pair.value.typ, pair.rest).value;
    assert ps == [pair.value] + rest;
    assert ds[..k + 1] == [ds[0]] + ds[1..][..k];
    if k > 0 {
      TypesAreSums(pair.value.typ, pair.rest, k - 1);
    }
  }

  /** Types never decrease, and no payload holds more than one pair in two bytes. */
  lemma {:induction false} TypesNeverDecrease(prev: uint64, s: seq<byte>)
    requires DecodeFrom(prev, s).Ok?
    ensures var ps := DecodeFrom(prev, s).value;
            && 2 * |ps| <= |s|
            && (forall k :: 0 <= k < |ps| ==> prev <= ps[k].typ)
            && (forall j, k :: 0 <= j < k < |ps| ==> ps[j].typ <= ps[k].typ)
    decreases |s|
  {
    hide Varint.Read;
    if s != [] {
      var pair := DecodePair(prev, s);
      TypesNeverDecrease(pair.value.typ, pair.rest);
    }
  }

  /** A decoded pair is in normal form and takes no more room when encoded again. */
  lemma PairShrinks(prev: uint64, s: seq<byte>)
    requires DecodePair(prev, s).Got?
    ensures var p := DecodePair(prev, s).value;
            && prev <= p.typ && ValueFits(p) && Normal(p) == p && EncodeValue(p).Ok?
            && |Varint.Encode(p.typ - prev) + EncodeValue(p).value| + |DecodePair(prev, s).rest| <= |s|
  {
    hide Varint.Encode, Varint.Read, DecodeValue, EncodeValue, Normal;
    var p := DecodePair(prev, s).value;
    VarintShrinks(s);
    ValueShrinks(p.typ, Varint.Read(s).rest);
  }

  lemma VarintShrinks(s: seq<byte>)
    requires Varint.Read(s).Got?
    ensures |Varint.Encode(Varint.Read(s).value)| + |Varint.Read(s).rest| <= |s|
  {
    var e := Varint.ReadConsumes(s);
  }

  lemma ValueShrinks(t: uint64, s: seq<byte>)
    requires DecodeValue(t, s).Got?
    ensures var p := Pair(t, DecodeValue(t, s).value);
            && ValueFits(p) && Normal(p) == p && EncodeValue(p).Ok?
            && |EncodeValue(p).value| + |DecodeValue(t, s).rest| <= |s|
  {
    hide Varint.Encode, Varint.Read;
    VarintShrinks(s);
    var p := Pair(t, DecodeValue(t, s).value);
    if t % 2 == 0 {
      Varint.ValueOfEncode(Varint.Read(s).value);
      ValueFitsIff(p);
    }
  }

  lemma {:induction false} ReencodeFrom(first: bool, prev: uint64, s: seq<byte>)
    requires first ==> prev == 0
    requires DecodeFrom(prev, s).Ok?
    ensures var ps := DecodeFrom(prev, s).value;
            && (forall p :: p in ps ==> ValueFits(p))
            && Normals(ps) == ps
            && (EncodeFrom(first, prev, ps).Ok? ==> |EncodeFrom(first, prev, ps).value| <= |s|)
    decreases |s|
  {
    hide Varint.Encode, Varint.Read, EncodeValue, Normal;
    if s != [] {
      var pair := DecodePair(prev, s);
      PairShrinks(prev, s);
      ReencodeFrom(false, pair.value.typ, pair.rest);
      var ps := DecodeFrom(prev, s).value;
      var rest := DecodeFrom(pair.value.typ, pair.rest).value;
      assert ps[0] == pair.value && ps[1..] == rest;
    }
  }

  /** An accepted payload encodes again exactly when its types strictly
      increase. The result is no longer than the payload, decodes to the same
      pairs, and encoding those once more changes nothing. */
  lemma Canonicalise(s: seq<byte>)
    requires Decode(s).Ok?
    ensures var ps := Decode(s).value;
            && (Encode(ps).Ok? <==> Increasing(ps))
            && (Encode(ps).Ok? ==>
                  var out := Encode(ps).value;
                  && |out| <= |s|
                  && Decode(out) == Ok(ps)
                  && Encode(Decode(out).value) == Ok(out))
  {
    hide Varint.Encode, Varint.Read;
    var ps := Decode(s).value;
    ReencodeFrom(true, 0, s);
    EncodesIff(ps);
    if Encode(ps).Ok? {
      RoundTrip(ps);
    }
  }

  /** No delta but the first is 0. */
  predicate PositiveAfterFirst(ds: seq<uint64>)
  {
    forall k :: 1 <= k < |ds| ==> ds[k] > 0
  }

  /** Decoded types strictly increase exactly when no delta but the first is 0. */
  lemma {:induction false} IncreasingIffDeltas(prev: uint64, s: seq<byte>)
    requires DecodeFrom(prev, s).Ok?
    ensures Increasing(DecodeFrom(prev, s).value) <==> PositiveAfterFirst(Deltas(prev, s))
    decreases |s|
  {
    hide Increasing, PositiveAfterFirst, DecodePair;
    if s == [] {
      NothingIncreases();
    } else {
      var pair := DecodePair(prev, s);
      var ps, ds := DecodeFrom(prev, s).value, Deltas(prev, s);
      var ps', ds' := DecodeFrom(pair.value.typ, pair.rest).value, Deltas(pair.value.typ, pair.rest);
      assert ps == [pair.value] + ps' && ps[1..] == ps' && ds[1..] == ds';
      IncreasingIffDeltas(pair.value.typ, pair.rest);
      IncreasingSplits(ps);
      PositiveSplits(ds);
      if |ds| > 1 { FirstType(pair.value.typ, pair.rest); }
    }
  }

  lemma NothingIncreases()
    ensures Increasing([]) && PositiveAfterFirst([])
  {}

  lemma PositiveSplits(ds: seq<uint64>)
    requires ds != []
    ensures PositiveAfterFirst(ds) <==> PositiveAfterFirst(ds[1..]) && (|ds| > 1 ==> ds[1..][0] > 0)
  {
    var rest := ds[1..];
    if PositiveAfterFirst(ds) {
      forall k | 1 <= k < |rest| ensures rest[k] > 0 { assert rest[k] == ds[k + 1]; }
    }
    if PositiveAfterFirst(rest) && (|ds| > 1 ==> rest[0] > 0) {
      forall k | 1 <= k < |ds| ensures ds[k] > 0 { assert ds[k] == rest[k - 1]; }
    }
  }

  lemma FirstType(prev: uint64, s: seq<byte>)
    requires s != [] && DecodeFrom(prev, s).Ok?
    ensures DecodeFrom(prev, s).value[0].typ == prev + Deltas(prev, s)[0]
  {
    hide Varint.Read;
  }

  /** Decoding alone does not make the types strictly increase: a second pair
      with delta 0 is accepted, and then cannot be encoded again. */
  lemma RepeatedTypeAccepted(raw: Slice) returns (s: seq<byte>)
    ensures Decode(s) == Ok([Pair(1, raw), Pair(1, raw)])
    ensures !Encode([Pair(1, raw), Pair(1, raw)]).Ok?
  {
    hide Varint.Encode, EncodeValue, DecodePair;
    var p := Pair(1, raw);
    ValueFitsIff(p);
    var s' := Varint.Encode(0) + EncodeValue(p).value + [];
    s := Varint.Encode(1) + EncodeValue(p).value + s';
    PairRoundTrip(0, p, s');
    PairRoundTrip(1, p, []);
    assert DecodeFrom(1, []) == Ok([]);
    assert Prepend([p], Ok([])).value == [p];
    assert DecodeFrom(1, s') == Prepend([p], DecodeFrom(1, []));
    assert Prepend([p], Ok([p])).value == [p, p];
    EncodesIff([p, p]);
    assert [p, p][0].typ == [p, p][1].typ;
  }
}
