// Delta-typed key-value pairs (draft-ietf-moq-transport-18, sections 10 and
// 10.3): odd types carry a length-prefixed byte string, even types a varint.
module KeyValue {
  import opened Bytes
  import opened Input
  import Varint

  datatype Pair = Pair(typ: uint64, raw: Slice)

  // ---------- encoding ----------

  /** The bytes that follow the type delta. */
  function EncodeValue(o: Pair): Result<seq<byte>>
  {
    if o.typ % 2 == 1 then Ok(Varint.Encode(|o.raw|) + o.raw)
    else if o.raw == [] then Ok(Varint.Encode(0))
    else
      match Varint.Read(o.raw)
      case Got(v, rest) => if rest == [] then Ok(Varint.Encode(v)) else Err(EvenOptionNotVarint)
      case Fail(_) => Err(EvenOptionNotVarint)
  }

  /** Encoding the options that follow one of type prev; for the first option
      prev is 0 and may be repeated. */
  function EncodeFrom(first: bool, prev: uint64, options: seq<Pair>): Result<seq<byte>>
    requires first ==> prev == 0
    decreases options
  {
    if options == [] then Ok([])
    else
      var o := options[0];
      if !first && o.typ <= prev then Err(TypesNotIncreasing)
      else
        match EncodeValue(o)
        case Err(e) => Err(e)
        case Ok(value) =>
          Prepend(Varint.Encode(o.typ - prev) + value, EncodeFrom(false, o.typ, options[1..]))
  }

  function Encode(options: seq<Pair>): Result<seq<byte>>
  {
    EncodeFrom(true, 0, options)
  }

  method EncodeKeyValuePairs(options: seq<Pair>) returns (res: Result<seq<byte>>)
    ensures res == Encode(options)
  {
    hide Varint.Encode, Varint.Read, EncodeValue;
    var out: seq<byte> := [];
    var prev: uint64 := 0;
    assert options[0..] == options;
    PrependNothing(Encode(options));
    for i := 0 to |options|
      invariant i == 0 ==> prev == 0
      invariant Encode(options) == Prepend(out, EncodeFrom(i == 0, prev, options[i..]))
    {
      var opt := options[i];
      assert options[i..][0] == opt && options[i..][1..] == options[i + 1..];
      if i == 0 {
        if opt.typ < prev {
          return Err(TypesNotIncreasing);
        }
      } else if opt.typ <= prev {
        return Err(TypesNotIncreasing);
      }
      var delta := opt.typ - prev;
      ghost var before := out;
      out := Varint.AppendVarint(out, delta);
      var value := AppendValue(out, opt);
      if value.Err? {
        return Err(value.error);
      }
      out := value.value;
      assert before + Varint.Encode(delta) + EncodeValue(opt).value
             == before + (Varint.Encode(delta) + EncodeValue(opt).value);
      PrependTwice(before, Varint.Encode(delta) + EncodeValue(opt).value, EncodeFrom(false, opt.typ, options[i + 1..]));
      prev := opt.typ;
    }
    assert out + [] == out;
    return Ok(out);
  }

  method AppendValue(out: seq<byte>, opt: Pair) returns (res: Result<seq<byte>>)
    ensures res == Prepend(out, EncodeValue(opt))
  {
    hide Varint.Encode, Varint.Read;
    if opt.typ % 2 == 1 {
      var b := Varint.AppendVarint(out, |opt.raw|);
      assert b + opt.raw == out + (Varint.Encode(|opt.raw|) + opt.raw);
      return Ok(b + opt.raw);
    } else if |opt.raw| == 0 {
      var b := Varint.AppendVarint(out, 0);
      return Ok(b);
    } else {
      var val, n, err := Varint.ParseVarint(opt.raw);
      if err != None || n <= 0 || n != |opt.raw| {
        return Err(EvenOptionNotVarint);
      }
      var b := Varint.AppendVarint(out, val);
      return Ok(b);
    }
  }

  // ---------- decoding ----------

  /** The value of a pair of type t. */
  function DecodeValue(t: uint64, s: seq<byte>): (p: Parse<Slice>)
    ensures p.Got? ==> |p.rest| < |s|
  {
    match Varint.Read(s)
    case Fail(e) => Fail(e)
    case Got(v, rest) =>
      if t % 2 == 0 then Got(Varint.Encode(v), rest)
      else if v > |rest| then Fail(LengthExceedsPayload)
      else Got(rest[..v], rest[v..])
  }

  /** One pair after a pair of type prev. */
  function DecodePair(prev: uint64, s: seq<byte>): (p: Parse<Pair>)
    ensures p.Got? ==> |p.rest| + 2 <= |s|
  {
    match Varint.Read(s)
    case Fail(e) => Fail(e)
    case Got(delta, rest) =>
      if delta > TWO_64 - 1 - prev then Fail(DeltaOverflow)
      else
        match DecodeValue(prev + delta, rest)
        case Fail(e) => Fail(e)
        case Got(raw, rest') => Got(Pair(prev + delta, raw), rest')
  }

  /** Pairs until the input is used up. */
  function DecodeFrom(prev: uint64, s: seq<byte>): Result<seq<Pair>>
    decreases |s|
  {
    if s == [] then Ok([])
    else
      match DecodePair(prev, s)
      case Fail(e) => Err(e)
      case Got(p, rest) => Prepend([p], DecodeFrom(p.typ, rest))
  }

  function Decode(payload: seq<byte>): Result<seq<Pair>>
  {
    DecodeFrom(0, payload)
  }

  method DecodeKeyValuePairs(payload: seq<byte>) returns (res: Result<seq<Pair>>)
    ensures res == Decode(payload)
  {
    hide Varint.Encode, Varint.Read, DecodePair;
    var r := new Reader(payload);
    var out: seq<Pair> := [];
    var prevType: uint64 := 0;
    PrependNothing(Decode(payload));
    while r.Len() > 0
      invariant r.Valid() && fresh(r)
      invariant Decode(payload) == Prepend(out, DecodeFrom(prevType, r.Rest()))
      decreases |r.data| - r.pos
    {
      var pair := ReadPair(r, prevType);
      if pair.Err? {
        return Err(pair.error);
      }
      PrependTwice(out, [pair.value], DecodeFrom(pair.value.typ, r.Rest()));
      out := out + [pair.value];
      prevType := pair.value.typ;
    }
    assert out + [] == out;
    return Ok(out);
  }

  /** One round of the decoding loop. After an error nothing more is read. */
  method ReadPair(r: Reader, prevType: uint64) returns (res: Result<Pair>)
    requires r.Valid()
    modifies r`pos
    ensures r.Valid()
    ensures match DecodePair(prevType, old(r.Rest()))
            case Got(p, rest) => res == Ok(p) && r.Rest() == rest
            case Fail(e) => res == Err(e)
  {
    hide Varint.Encode, Varint.Read;
    var delta := Varint.ReadVarint(r);
    if delta.Err? {
      return Err(delta.error);
    }
    if delta.value > TWO_64 - 1 - prevType {
      return Err(DeltaOverflow);
    }
    var t := prevType + delta.value;
    var raw: Slice;
    if t % 2 == 1 {
      var l := Varint.ReadVarint(r);
      if l.Err? {
        return Err(l.error);
      }
      if l.value > r.Len() {
        return Err(LengthExceedsPayload);
      }
      var bytes := r.ReadFull(l.value);
      raw := bytes.value;
    } else {
      var val := Varint.ReadVarint(r);
      if val.Err? {
        return Err(val.error);
      }
      raw := Varint.AppendVarint([], val.value);
      assert raw == Varint.Encode(val.value);
    }
    return Ok(Pair(t, raw));
  }

  method CountKeyValuePairs(payload: seq<byte>) returns (res: Result<nat>)
    ensures res == match Decode(payload) case Err(e) => Err(e) case Ok(ps) => Ok(|ps|)
  {
    var pairs := DecodeKeyValuePairs(payload);
    if pairs.Err? {
      return Err(pairs.error);
    }
    return Ok(|pairs.value|);
  }

  // ---------- what encoding accepts, and what comes back ----------

  predicate Increasing(options: seq<Pair>)
  {
    forall i, j :: 0 <= i < j < |options| ==> options[i].typ < options[j].typ
  }

  /** An even-typed value must be empty or exactly one varint, minimal or not. */
  predicate ValueFits(o: Pair)
  {
    o.typ % 2 == 0 && o.raw != [] ==> Varint.IsEncoding(o.raw)
  }

  /** The option with an even-typed value replaced by its shortest varint;
      an empty value stands for 0. */
  function Normal(o: Pair): Pair
    requires ValueFits(o)
  {
    if o.typ % 2 == 1 then o
    else if o.raw == [] then Pair(o.typ, Varint.Encode(0))
    else Pair(o.typ, Varint.Encode(Varint.Value(o.raw)))
  }

  lemma ValueFitsIff(o: Pair)
    ensures EncodeValue(o).Ok? <==> ValueFits(o)
    ensures ValueFits(o) && o.typ % 2 == 0 ==> EncodeValue(o) == Ok(Normal(o).raw)
  {
    if o.typ % 2 == 0 && o.raw != [] {
      if Varint.Read(o.raw).Got? {
        var e := Varint.ReadConsumes(o.raw);
      }
      if Varint.IsEncoding(o.raw) {
        Varint.ReadSplits(o.raw, []);
        assert o.raw + [] == o.raw;
      }
    }
  }

  /** Encoding succeeds exactly for strictly increasing types with fitting values. */
  lemma EncodesIff(options: seq<Pair>)
    ensures Encode(options).Ok? <==> Increasing(options) && forall o :: o in options ==> ValueFits(o)
  {
    EncodesFromIff(true, 0, options);
  }

  lemma {:induction false} EncodesFromIff(first: bool, prev: uint64, options: seq<Pair>)
    requires first ==> prev == 0
    ensures EncodeFrom(first, prev, options).Ok? <==>
            && Increasing(options)
            && (forall o :: o in options ==> ValueFits(o))
            && (!first && options != [] ==> prev < options[0].typ)
    decreases options
  {
    if options != [] {
      var o, rest := options[0], options[1..];
      ValueFitsIff(o);
      EncodesFromIff(false, o.typ, rest);
      IncreasingSplits(options);
      assert forall x :: x in options <==> x == o || x in rest;
    }
  }

  lemma IncreasingSplits(options: seq<Pair>)
    requires options != []
    ensures Increasing(options) <==>
            Increasing(options[1..]) && (|options| > 1 ==> options[0].typ < options[1].typ)
  {
    var rest := options[1..];
    if Increasing(rest) && (|options| > 1 ==> options[0].typ < options[1].typ) {
      forall i, j | 0 <= i < j < |options| ensures options[i].typ < options[j].typ {
        assert options[j] == rest[j - 1];
        if i > 0 { assert options[i] == rest[i - 1]; } else if j > 1 { assert rest[0].typ < rest[j - 1].typ; }
      }
    }
    if Increasing(options) {
      forall i, j | 0 <= i < j < |rest| ensures rest[i].typ < rest[j].typ {
        assert rest[i] == options[i + 1] && rest[j] == options[j + 1];
      }
    }
  }

  function Normals(options: seq<Pair>): seq<Pair>
    requires forall o :: o in options ==> ValueFits(o)
  {
    if options == [] then [] else [Normal(options[0])] + Normals(options[1..])
  }

  /** Decoding an encoding gives the options back, normalised. */
  lemma RoundTrip(options: seq<Pair>)
    requires Encode(options).Ok?
    ensures forall o :: o in options ==> ValueFits(o)
    ensures Decode(Encode(options).value) == Ok(Normals(options))
  {
    RoundTripFrom(true, 0, options);
  }

  lemma {:induction false} RoundTripFrom(first: bool, prev: uint64, options: seq<Pair>)
    requires first ==> prev == 0
    requires EncodeFrom(first, prev, options).Ok?
    ensures forall o :: o in options ==> ValueFits(o)
    ensures DecodeFrom(prev, EncodeFrom(first, prev, options).value) == Ok(Normals(options))
    decreases options
  {
    hide Varint.Encode, Varint.Read, DecodePair, EncodeValue;
    EncodesFromIff(first, prev, options);
    if options != [] {
      var o := options[0];
      var rest := EncodeFrom(false, o.typ, options[1..]).value;
      RoundTripFrom(false, o.typ, options[1..]);
      PairRoundTrip(prev, o, rest);
    }
  }

  lemma PairRoundTrip(prev: uint64, o: Pair, rest: seq<byte>)
    requires prev <= o.typ && ValueFits(o)
    ensures EncodeValue(o).Ok?
    ensures DecodePair(prev, Varint.Encode(o.typ - prev) + EncodeValue(o).value + rest) == Got(Normal(o), rest)
  {
    hide Varint.Encode, Varint.Read, EncodeValue, DecodeValue;
    ValueRoundTrip(o, rest);
    var d, v := Varint.Encode(o.typ - prev), EncodeValue(o).value;
    assert d + v + rest == d + (v + rest);
    Varint.RoundTrip(o.typ - prev, v + rest);
  }

  lemma ValueRoundTrip(o: Pair, rest: seq<byte>)
    requires ValueFits(o)
    ensures EncodeValue(o).Ok?
    ensures DecodeValue(o.typ, EncodeValue(o).value + rest) == Got(Normal(o).raw, rest)
  {
    ValueFitsIff(o);
    if o.typ % 2 == 1 {
      assert Varint.Encode(|o.raw|) + o.raw + rest == Varint.Encode(|o.raw|) + (o.raw + rest);
      Varint.RoundTrip(|o.raw|, o.raw + rest);
      TakeExact(o.raw, rest);
    } else {
      Varint.RoundTrip(if o.raw == [] then 0 else Varint.Value(o.raw), rest);
    }
  }

  // ---------- which error ----------

  /** A delta that takes the type past 2^64, and a length that is not there. */
  lemma DecodeFails(prev: uint64, e: seq<byte>, l: seq<byte>, bytes: seq<byte>)
    requires Varint.IsEncoding(e)
    ensures prev + Varint.Value(e) >= 0x1_0000_0000_0000_0000 ==>
              DecodePair(prev, e + (l + bytes)) == Fail(DeltaOverflow)
    ensures prev + Varint.Value(e) < 0x1_0000_0000_0000_0000 && (prev + Varint.Value(e)) % 2 == 1
            && Varint.IsEncoding(l) && Varint.Value(l) > |bytes| ==>
              DecodePair(prev, e + (l + bytes)) == Fail(LengthExceedsPayload)
  {
    hide Varint.Read, Varint.IsEncoding, Varint.Value;
    Varint.ReadSplits(e, l + bytes);
    if Varint.IsEncoding(l) { Varint.ReadSplits(l, bytes); }
  }

  /** The first option that cannot be encoded decides: its type if that does not
      increase, otherwise its value. */
  lemma EncodeFails(options: seq<Pair>, j: nat)
    requires j < |options| && Encode(options[..j]).Ok?
    requires (j > 0 && options[j].typ <= options[j - 1].typ) || !ValueFits(options[j])
    ensures Encode(options)
            == Err(if j > 0 && options[j].typ <= options[j - 1].typ then TypesNotIncreasing else EvenOptionNotVarint)
  {
    EncodeFromFails(true, 0, options, j);
  }

  lemma {:induction false} EncodeFromFails(first: bool, prev: uint64, options: seq<Pair>, j: nat)
    requires first ==> prev == 0
    requires j < |options| && EncodeFrom(first, prev, options[..j]).Ok?
    requires FailsAt(first, prev, options, j) || !ValueFits(options[j])
    ensures EncodeFrom(first, prev, options)
            == Err(if FailsAt(first, prev, options, j) then TypesNotIncreasing else EvenOptionNotVarint)
    decreases j
  {
    hide EncodeValue, Varint.Encode, ValueFits;
    var o := options[0];
    ValueFitsIff(o);
    if j == 0 {
      WhyValueFails(o);
    } else {
      assert options[..j][0] == o && options[..j][1..] == options[1..][..j - 1];
      EncodeFromFails(false, o.typ, options[1..], j - 1);
    }
  }

  /** Option j does not continue the types before it. */
  predicate FailsAt(first: bool, prev: uint64, options: seq<Pair>, j: nat)
    requires j < |options|
  {
    if j > 0 then options[j].typ <= options[j - 1].typ else !first && options[j].typ <= prev
  }

  lemma WhyValueFails(o: Pair)
    ensures EncodeValue(o).Err? ==> EncodeValue(o).error == EvenOptionNotVarint
  {}
}
