// The SUBSCRIBE message body (draft-ietf-moq-transport-18, section 10.7).
module Subscribe {
  import opened Bytes
  import opened Input
  import Canonical
  import KeyValue
  import Varint

  const MAX_FIELDS: nat := 32
  const MAX_NAMESPACE: nat := 4096

  datatype Message = Message(
    requestID: uint64,
    trackNamespace: seq<Slice>,
    trackName: Slice,
    parametersRaw: Slice)

  // ---------- encoding ----------

  function EncodeField(f: Slice): seq<byte>
  {
    Varint.Encode(|f|) + f
  }

  function EncodeFields(fields: seq<Slice>): seq<byte>
  {
    if fields == [] then [] else EncodeField(fields[0]) + EncodeFields(fields[1..])
  }

  function TotalLength(fields: seq<Slice>): nat
  {
    if fields == [] then 0 else |fields[0]| + TotalLength(fields[1..])
  }

  function EncodeNamespace(fields: seq<Slice>): Result<seq<byte>>
  {
    if |fields| > MAX_FIELDS then Err(TooManyNamespaceFields)
    else if [] in fields then Err(EmptyNamespaceField)
    else if TotalLength(fields) > MAX_NAMESPACE then Err(NamespaceTooLong)
    else Ok(Varint.Encode(|fields|) + EncodeFields(fields))
  }

  function EncodeParameters(raw: Slice): Result<seq<byte>>
  {
    if raw == [] then Ok(Varint.Encode(0))
    else
      match KeyValue.Decode(raw)
      case Err(e) => Err(e)
      case Ok(pairs) => Ok(Varint.Encode(|pairs| % TWO_64) + raw)
  }

  function Encode(m: Message): Result<seq<byte>>
  {
    match EncodeNamespace(m.trackNamespace)
    case Err(e) => Err(e)
    case Ok(ns) =>
      match EncodeParameters(m.parametersRaw)
      case Err(e) => Err(e)
      case Ok(params) =>
        Ok(Varint.Encode(m.requestID) + (ns + (EncodeField(m.trackName) + params)))
  }

  method EncodeTrackNamespace(fields: seq<Slice>) returns (res: Result<seq<byte>>)
    ensures res == EncodeNamespace(fields)
  {
    hide Varint.Encode;
    if |fields| > MAX_FIELDS {
      return Err(TooManyNamespaceFields);
    }
    var b := Varint.AppendVarint([], |fields|);
    ghost var start := b;
    assert start == Varint.Encode(|fields|);
    var fullLen := 0;
    for i := 0 to |fields|
      invariant [] !in fields[..i]
      invariant fullLen == TotalLength(fields[..i])
      invariant b == start + EncodeFields(fields[..i])
    {
      var f := fields[i];
      if |f| == 0 {
        return Err(EmptyNamespaceField);
      }
      fullLen := fullLen + |f|;
      b := Varint.AppendVarint(b, |f|);
      b := b + f;
      assert fields[..i + 1] == fields[..i] + [f];
      FieldsAppend(fields[..i], f);
      assert start + EncodeFields(fields[..i]) + Varint.Encode(|f|) + f
             == start + (EncodeFields(fields[..i]) + EncodeField(f));
    }
    assert fields[..|fields|] == fields;
    if fullLen > MAX_NAMESPACE {
      return Err(NamespaceTooLong);
    }
    return Ok(b);
  }

  lemma {:induction false} FieldsAppend(fields: seq<Slice>, f: Slice)
    ensures TotalLength(fields + [f]) == TotalLength(fields) + |f|
    ensures EncodeFields(fields + [f]) == EncodeFields(fields) + EncodeField(f)
  {
    hide EncodeField;
    if fields == [] {
      assert fields + [f] == [f];
      assert EncodeFields([f]) == EncodeField(f) + EncodeFields([]);
    } else {
      FieldsAppend(fields[1..], f);
      assert (fields + [f])[1..] == fields[1..] + [f];
    }
  }

  method EncodeSubscribe(m: Message) returns (res: Result<seq<byte>>)
    ensures res == Encode(m)
  {
    hide Varint.Encode, KeyValue.Decode, EncodeNamespace;
    var payload := Varint.AppendVarint([], m.requestID);
    var ns := EncodeTrackNamespace(m.trackNamespace);
    if ns.Err? {
      return Err(ns.error);
    }
    payload := payload + ns.value;
    payload := Varint.AppendVarint(payload, |m.trackName|);
    payload := payload + m.trackName;
    ghost var params: seq<byte>;
    ghost var before := payload;
    if |m.parametersRaw| == 0 {
      params := Varint.Encode(0);
      payload := Varint.AppendVarint(payload, 0);
    } else {
      var num := KeyValue.CountKeyValuePairs(m.parametersRaw);
      if num.Err? {
        return Err(num.error);
      }
      params := Varint.Encode(num.value % TWO_64) + m.parametersRaw;
      payload := Varint.AppendVarint(payload, num.value % TWO_64);
      payload := payload + m.parametersRaw;
    }
    assert payload == before + params;
    assert EncodeParameters(m.parametersRaw) == Ok(params);
    assert payload == Varint.Encode(m.requestID) + (ns.value + (EncodeField(m.trackName) + params));
    return Ok(payload);
  }

  // ---------- decoding: what a relay can do with the bytes ----------

  function DecodeField(s: seq<byte>): (p: Parse<Slice>)
  {
    match Varint.Read(s)
    case Fail(e) => Fail(e)
    case Got(len, rest) =>
      match Take(rest, len)
      case Fail(e) => Fail(e)
      case Got(f, rest') => Got(f, rest')
  }

  function DecodeFields(n: nat, s: seq<byte>): (p: Parse<seq<Slice>>)
    ensures p.Got? ==> |p.value| == n
  {
    if n == 0 then Got([], s)
    else
      match DecodeField(s)
      case Fail(e) => Fail(e)
      case Got(f, rest) =>
        match DecodeFields(n - 1, rest)
        case Fail(e) => Fail(e)
        case Got(fs, rest') => Got([f] + fs, rest')
  }

  /** Exactly n key-value pairs. */
  function DecodePairs(n: nat, prev: uint64, s: seq<byte>): Parse<seq<KeyValue.Pair>>
  {
    if n == 0 then Got([], s)
    else
      match KeyValue.DecodePair(prev, s)
      case Fail(e) => Fail(e)
      case Got(p, rest) =>
        match DecodePairs(n - 1, p.typ, rest)
        case Fail(e) => Fail(e)
        case Got(ps, rest') => Got([p] + ps, rest')
  }

  /** A decoder that believes the announced numbers: it reads that many
      namespace fields and that many parameters, and wants nothing left over. */
  function Decode(s: seq<byte>): Option<Message>
  {
    match Varint.Read(s)
    case Fail(_) => None
    case Got(id, s1) =>
      match Varint.Read(s1)
      case Fail(_) => None
      case Got(numFields, s2) =>
        match DecodeFields(numFields, s2)
        case Fail(_) => None
        case Got(fields, s3) =>
          match DecodeField(s3)
          case Fail(_) => None
          case Got(name, s4) => DecodeParameters(id, fields, name, s4)
  }

  function DecodeParameters(id: uint64, fields: seq<Slice>, name: Slice, s: seq<byte>): Option<Message>
  {
    match Varint.Read(s)
    case Fail(_) => None
    case Got(num, raw) =>
      match DecodePairs(num, 0, raw)
      case Fail(_) => None
      case Got(_, rest) =>
        if rest == [] && |raw| < TWO_64 then Some(Message(id, fields, name, raw)) else None
  }

  lemma FieldRoundTrip(f: Slice, rest: seq<byte>)
    ensures DecodeField(EncodeField(f) + rest) == Got(f, rest)
  {
    hide Varint.Encode, Varint.Read;
    assert EncodeField(f) + rest == Varint.Encode(|f|) + (f + rest);
    Varint.RoundTrip(|f|, f + rest);
    TakeExact(f, rest);
  }

  lemma {:induction false} FieldsRoundTrip(fields: seq<Slice>, rest: seq<byte>)
    ensures DecodeFields(|fields|, EncodeFields(fields) + rest) == Got(fields, rest)
  {
    hide EncodeField, DecodeField;
    if fields == [] {
      assert EncodeFields(fields) + rest == rest;
    } else {
      var more := EncodeFields(fields[1..]) + rest;
      assert EncodeFields(fields) + rest == EncodeField(fields[0]) + more;
      FieldRoundTrip(fields[0], more);
      FieldsRoundTrip(fields[1..], rest);
      assert fields == [fields[0]] + fields[1..];
    }
  }

  /** The loop that stops at the end of the input and the one that counts
      agree, and no other count uses the input up. */
  lemma {:induction false} CountIsExact(n: nat, prev: uint64, s: seq<byte>)
    requires KeyValue.DecodeFrom(prev, s).Ok?
    ensures var ps := KeyValue.DecodeFrom(prev, s).value;
            (exists qs :: DecodePairs(n, prev, s) == Got(qs, [])) <==> n == |ps|
    ensures var ps := KeyValue.DecodeFrom(prev, s).value;
            n == |ps| ==> DecodePairs(n, prev, s) == Got(ps, [])
    decreases n
  {
    hide KeyValue.DecodePair;
    if s == [] {
      if n > 0 { assert KeyValue.DecodePair(prev, s).Fail? by { NoPairInNothing(prev); } }
    } else {
      var pair := KeyValue.DecodePair(prev, s);
      if n > 0 {
        CountIsExact(n - 1, pair.value.typ, pair.rest);
      }
    }
  }

  lemma NoPairInNothing(prev: uint64)
    ensures KeyValue.DecodePair(prev, []).Fail?
  {}

  /** Nothing is lost in a SUBSCRIBE: the announced counts are right, and every
      field comes back. */
  lemma RoundTrip(m: Message)
    requires Encode(m).Ok?
    ensures Decode(Encode(m).value) == Some(m)
  {
    hide Varint.Encode, Varint.Read, EncodeField, DecodeField, EncodeFields, DecodeFields, EncodeParameters,
         DecodeParameters;
    var fields := m.trackNamespace;
    var params := EncodeParameters(m.parametersRaw).value;
    var s4 := params;
    var s3 := EncodeField(m.trackName) + s4;
    var s2 := EncodeFields(fields) + s3;
    var s1 := Varint.Encode(|fields|) + s2;
    assert Encode(m).value == Varint.Encode(m.requestID) + s1 by {
      assert EncodeNamespace(fields).value + s3 == s1;
    }
    Varint.RoundTrip(m.requestID, s1);
    Varint.RoundTrip(|fields|, s2);
    FieldsRoundTrip(fields, s3);
    FieldRoundTrip(m.trackName, s4);
    ParametersRoundTrip(m);
  }

  lemma ParametersRoundTrip(m: Message)
    requires EncodeParameters(m.parametersRaw).Ok?
    ensures DecodeParameters(m.requestID, m.trackNamespace, m.trackName, EncodeParameters(m.parametersRaw).value)
            == Some(m)
  {
    hide Varint.Encode, Varint.Read, DecodePairs, KeyValue.DecodeFrom;
    var raw := m.parametersRaw;
    assert KeyValue.Decode([]) == Ok([]) by { DecodeNothing(); }
    var n := |KeyValue.Decode(raw).value|;
    PairsFit(raw);
    Varint.RoundTrip(n, raw);
    assert Varint.Encode(0) + [] == Varint.Encode(0);
    CountIsExact(n, 0, raw);
  }

  lemma DecodeNothing()
    ensures KeyValue.Decode([]) == Ok([])
  {}

  lemma PairsFit(raw: Slice)
    requires KeyValue.Decode(raw).Ok?
    ensures |KeyValue.Decode(raw).value| < TWO_64
  {
    Canonical.TypesNeverDecrease(0, raw);
  }

  /** Different messages have different encodings. */
  lemma Injective(m: Message, m': Message)
    requires Encode(m).Ok? && Encode(m) == Encode(m')
    ensures m == m'
  {
    hide Encode, Decode;
    RoundTrip(m);
    RoundTrip(m');
  }

  /** Exactly these messages are accepted; and which error the others give. */
  lemma EncodesIff(m: Message)
    ensures Encode(m).Ok? <==>
            && |m.trackNamespace| <= 32
            && (forall f :: f in m.trackNamespace ==> f != [])
            && |Concat(m.trackNamespace)| <= 4096
            && KeyValue.Decode(m.parametersRaw).Ok?
    ensures |m.trackNamespace| > 32 ==> Encode(m) == Err(TooManyNamespaceFields)
    ensures |m.trackNamespace| <= 32 && [] in m.trackNamespace ==> Encode(m) == Err(EmptyNamespaceField)
    ensures |m.trackNamespace| <= 32 && [] !in m.trackNamespace && |Concat(m.trackNamespace)| > 4096 ==>
              Encode(m) == Err(NamespaceTooLong)
  {
    hide Varint.Encode, KeyValue.DecodeFrom, TotalLength;
    DecodeNothing();
    TotalIsAll(m.trackNamespace);
  }

  lemma {:induction false} TotalIsAll(fields: seq<Slice>)
    ensures TotalLength(fields) == |Concat(fields)|
  {
    if fields != [] { TotalIsAll(fields[1..]); }
  }
}
