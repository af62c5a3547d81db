// Where a unidirectional stream may end: which cuts are reported as errors,
// and the shared first varint of the control stream.
module Cuts {
  import opened Bytes
  import opened Input
  import opened Frames
  import opened Subgroup
  import opened UniStream
  import KeyValue
  import Varint

  /** The sizes of the reads the machine issues on s, in order. */
  function Regions(st: State, s: seq<byte>): seq<nat>
    requires Valid(st)
    decreases |s|, if !st.Stop? && Want(st) == 0 then 1 else 0
  {
    if st.Stop? then []
    else
      [Want(st)] +
      match Take(s, Want(st))
      case Fail(_) => []
      case Got(bytes, rest) => Regions(Feed(st, bytes).next, rest)
  }

  /** Offset k is neither the start nor the end of a region. */
  predicate StrictlyInside(regions: seq<nat>, k: nat)
  {
    regions != [] &&
    if k < regions[0] then k > 0 else StrictlyInside(regions[1..], k - regions[0])
  }

  /** No message on the stream is rejected by its decoder. */
  predicate Clean(st: State, s: seq<byte>)
    requires Valid(st)
    decreases |s|, if !st.Stop? && Want(st) == 0 then 1 else 0
  {
    if st.Stop? then st.err.None?
    else
      match Take(s, Want(st))
      case Fail(_) => true
      case Got(bytes, rest) => Clean(Feed(st, bytes).next, rest)
  }

  /** Every message on the stream, if it is a control stream, is acceptable. */
  predicate Acceptable(s: seq<byte>)
  {
    var p := Varint.Read(s);
    p.Got? && p.value == SETUP ==> forall f :: f in Frames.ReadAll(s).0 ==> DispatchError(f) == None
  }

  /** The machine never stops with an error exactly on these streams. */
  lemma CleanIff(s: seq<byte>)
    ensures Clean(First(StreamType), s) <==> Acceptable(s)
  {
    hide Clean, Varint.Read, Frames.ReadBody, Frames.ReadAll, DispatchError;
    CleanVarint(StreamType, s);
    var p := Varint.Read(s);
    if p.Got? {
      if p.value == SETUP {
        CleanMessage(p.value, s);
      } else if IsSubgroupStreamType(p.value) {
        CleanData(First(Alias(Blank(p.value))), p.rest);
      } else {
        CleanStop(p.rest);
      }
    }
  }

  lemma CleanStop(s: seq<byte>)
    ensures Clean(Stop(None), s)
  {}

  lemma CleanVarint(f: VarField, s: seq<byte>)
    ensures var p := Varint.Read(s);
            Clean(First(f), s) <==> p.Fail? || Clean(Accept(f, p.value).next, p.rest)
  {
    hide Accept, Varint.Value;
    if s != [] && Varint.Length(s[0]) > 1 {
      assert s[..1] == [s[0]];
      assert Feed(First(f), [s[0]]) == Move(Rest(f, s[0]), []);
    } else if s != [] {
      assert s[..1] == [s[0]];
    }
  }

  lemma CleanFixed(b: BytesField, n: nat, s: seq<byte>)
    requires Valid(Fixed(b, n))
    ensures Clean(Fixed(b, n), s) <==> n > |s| || Clean(AcceptBytes(b, s[..n]).next, s[n..])
  {
    hide AcceptBytes;
  }

  /** A message of type t behind its type, and the messages after it. */
  lemma CleanFrame(t: uint64, s: seq<byte>)
    ensures var p := Frames.ReadBody(s);
            Clean(Fixed(FrameLength(t), 2), s) <==>
            p.Fail? || (DispatchError(Frame(t, p.value)) == None && Clean(First(FrameType), p.rest))
  {
    hide Clean, FromBytes, DispatchError;
    CleanFixed(FrameLength(t), 2, s);
    if 2 <= |s| {
      var n := FromBytes(s[..2]);
      CleanFixed(FrameBody(t), n, s[2..]);
      if n <= |s[2..]| && DispatchError(Frame(t, s[2..][..n])).Some? {
        NotClean(DispatchError(Frame(t, s[2..][..n])), s[2..][n..]);
      }
    }
  }

  lemma NotClean(err: Option<Error>, s: seq<byte>)
    ensures Clean(Stop(err), s) <==> err == None
  {}

  lemma {:induction false} CleanControl(s: seq<byte>)
    ensures Clean(First(FrameType), s) <==> forall f :: f in Frames.ReadAll(s).0 ==> DispatchError(f) == None
    decreases |s|
  {
    hide Clean, Varint.Read, Frames.ReadBody, Frames.ReadAll, DispatchError;
    CleanVarint(FrameType, s);
    var p := Varint.Read(s);
    if p.Got? {
      CleanMessage(p.value, s);
    } else {
      NoMessages(s);
    }
  }

  lemma NoMessages(s: seq<byte>)
    requires Frames.Read(s).Fail?
    ensures Frames.ReadAll(s).0 == []
  {}

  /** The first message of s, its type being read, and all others. */
  lemma {:induction false} CleanMessage(t: uint64, s: seq<byte>)
    requires Varint.Read(s).Got? && Varint.Read(s).value == t
    ensures Clean(Fixed(FrameLength(t), 2), Varint.Read(s).rest) <==>
            forall f :: f in Frames.ReadAll(s).0 ==> DispatchError(f) == None
    decreases |s|, 0
  {
    hide Clean, Varint.Read, Frames.ReadBody, Frames.ReadAll, DispatchError;
    var rest := Varint.Read(s).rest;
    CleanFrame(t, rest);
    var p := Frames.ReadBody(rest);
    if p.Got? {
      CleanControl(p.rest);
      FirstMessage(s);
      AllOf(Frame(t, p.value), Frames.ReadAll(p.rest).0);
    } else {
      NoMessages(s);
    }
  }

  lemma FirstMessage(s: seq<byte>)
    requires Frames.Read(s).Got?
    ensures Frames.ReadAll(s).0 == [Frames.Read(s).value] + Frames.ReadAll(Frames.Read(s).rest).0
  {
    hide Frames.Read;
  }

  lemma AllOf(f: Frame, fs: seq<Frame>)
    ensures (forall g :: g in [f] + fs ==> DispatchError(g) == None) <==>
            DispatchError(f) == None && forall g :: g in fs ==> DispatchError(g) == None
  {
    hide DispatchError;
    assert f in [f] + fs && forall g :: g in fs ==> g in [f] + fs;
  }

  /** The fields of a subgroup stream. */
  predicate IsData(st: State)
  {
    match st
    case First(f) => !f.StreamType? && !f.FrameType?
    case Rest(f, _) => !f.StreamType? && !f.FrameType?
    case Fixed(b, _) => !b.FrameLength? && !b.FrameBody?
    case Stop(_) => false
  }

  /** Nothing on a subgroup stream is ever rejected. */
  lemma {:induction false} CleanData(st: State, s: seq<byte>)
    requires Valid(st) && IsData(st)
    ensures Clean(st, s)
    decreases |s|, if !st.Stop? && Want(st) == 0 then 1 else 0
  {
    hide Feed;
    if Want(st) <= |s| {
      var next := Feed(st, s[..Want(st)]).next;
      DataGoesOn(st, s[..Want(st)]);
      CleanData(next, s[Want(st)..]);
    }
  }

  lemma DataGoesOn(st: State, bytes: seq<byte>)
    requires Valid(st) && IsData(st) && |bytes| == Want(st)
    ensures IsData(Feed(st, bytes).next)
  {}

  lemma {:induction false} MachineCut(st: State, s: seq<byte>, k: nat)
    requires Valid(st) && k <= |s| && Clean(st, s)
    ensures Run(st, s[..k]).err == if StrictlyInside(Regions(st, s), k) then Some(UnexpectedEOF) else None
    ensures Run(st, s[..k]).events <= Run(st, s).events
    decreases |s|, if !st.Stop? && Want(st) == 0 then 1 else 0
  {
    hide Feed;
    if !st.Stop? && Want(st) <= k {
      var n := Want(st);
      assert s[..k][..n] == s[..n] && s[..k][n..] == s[n..][..k - n];
      MachineCut(Feed(st, s[..n]).next, s[n..], k - n);
    }
  }

  /** The error of a cut stream is exact: a stream whose messages are all
      acceptable, ended after k bytes, posts an error exactly when k lies
      strictly inside one read; a cut at the start of any read, also between a
      varint's first byte and its other bytes, or between a length and its
      body, ends silently. Whatever was delivered is a prefix of what the whole
      stream delivers. */
  lemma ErrorKindIsExact(s: seq<byte>, k: nat)
    requires k <= |s| && Acceptable(s)
    ensures Posted(HandleUni(s[..k]).err)
            == if StrictlyInside(Regions(First(StreamType), s), k) then Some(UnexpectedEOF) else None
    ensures HandleUni(s[..k]).events <= HandleUni(s).events
  {
    hide Run, HandleUni, Regions, Clean, Acceptable;
    CleanIff(s);
    MachineAgrees(s);
    MachineAgrees(s[..k]);
    MachineCut(First(StreamType), s, k);
  }

  // ---------- the regions, field by field ----------

  /** A varint is one read of one byte, and one of the others if there are any. */
  function VarintRegions(e: seq<byte>): seq<nat>
    requires Varint.IsEncoding(e)
  {
    if |e| == 1 then [1] else [1, |e| - 1]
  }

  lemma RegionsOfVarint(f: VarField, e: seq<byte>, tail: seq<byte>)
    requires Varint.IsEncoding(e)
    ensures Regions(First(f), e + tail) == VarintRegions(e) + Regions(Accept(f, Varint.Value(e)).next, tail)
  {
    hide Accept, Varint.Value, Feed, Regions;
    var s := e + tail;
    assert s[..1] == [e[0]] && s[1..] == e[1..] + tail;
    RegionsStep(First(f), s);
    if |e| == 1 {
      assert e == [e[0]] && s[1..] == tail;
      OneByteFeed(f, e);
    } else {
      FirstOfMany(f, e);
      RegionsOfRest(f, e, tail);
      var rest := Regions(Accept(f, Varint.Value(e)).next, tail);
      assert [1] + ([|e| - 1] + rest) == [1, |e| - 1] + rest;
    }
  }

  lemma RegionsStep(st: State, s: seq<byte>)
    requires Valid(st) && !st.Stop? && Want(st) <= |s|
    ensures Regions(st, s) == [Want(st)] + Regions(Feed(st, s[..Want(st)]).next, s[Want(st)..])
  {
    hide Feed;
  }

  lemma FirstOfMany(f: VarField, e: seq<byte>)
    requires Varint.IsEncoding(e) && |e| > 1
    ensures Feed(First(f), [e[0]]) == Move(Rest(f, e[0]), [])
  {}

  lemma RegionsOfRest(f: VarField, e: seq<byte>, tail: seq<byte>)
    requires Varint.IsEncoding(e) && |e| > 1
    ensures Regions(Rest(f, e[0]), e[1..] + tail) == [|e| - 1] + Regions(Accept(f, Varint.Value(e)).next, tail)
  {
    hide Accept, Varint.Value, Regions;
    assert (e[1..] + tail)[..|e| - 1] == e[1..] && (e[1..] + tail)[|e| - 1..] == tail;
    assert [e[0]] + e[1..] == e;
    RegionsStep(Rest(f, e[0]), e[1..] + tail);
  }

  lemma OneByteFeed(f: VarField, e: seq<byte>)
    requires Varint.IsEncoding(e) && |e| == 1
    ensures Feed(First(f), e) == Accept(f, Varint.Value(e))
  {
    Varint.OneByte(e);
  }

  lemma RegionsOfBytes(b: BytesField, bytes: seq<byte>, tail: seq<byte>)
    requires Valid(Fixed(b, |bytes|))
    ensures Regions(Fixed(b, |bytes|), bytes + tail) == [|bytes|] + Regions(AcceptBytes(b, bytes).next, tail)
  {
    hide AcceptBytes, Regions;
    assert (bytes + tail)[..|bytes|] == bytes && (bytes + tail)[|bytes|..] == tail;
    RegionsStep(Fixed(b, |bytes|), bytes + tail);
  }

  /** A control message that its decoder accepts: its type, in any encoding,
      two bytes of length, the body. */
  lemma RegionsOfFrame(e: seq<byte>, body: seq<byte>, tail: seq<byte>)
    requires Varint.IsEncoding(e) && |body| <= MAX_FRAME_LEN
    requires DispatchError(Frame(Varint.Value(e), body)) == None
    ensures Regions(First(FrameType), e + (ToBytes(|body|, 2) + (body + tail)))
            == VarintRegions(e) + [2] + [|body|] + Regions(First(FrameType), tail)
  {
    hide Regions, VarintRegions, Varint.Value, DispatchError;
    var t, len := Varint.Value(e), ToBytes(|body|, 2);
    RegionsOfVarint(FrameType, e, len + (body + tail));
    RegionsOfBytes(FrameLength(t), len, body + tail);
    assert Pow256(2) == 0x1_0000;
    FromToBytes(|body|, 2);
    RegionsOfBytes(FrameBody(t), body, tail);
  }

  /** An object on the wire, its varints in any encoding: the delta; if the
      stream type has extensions, their length and bytes; then a payload with
      its length, or a zero length and a status. */
  datatype WireObject =
    | WithPayload(delta: seq<byte>, extLen: seq<byte>, ext: seq<byte>, len: seq<byte>, payload: seq<byte>)
    | WithStatus(delta: seq<byte>, extLen: seq<byte>, ext: seq<byte>, zero: seq<byte>, status: seq<byte>)

  predicate Consistent(hasExtensions: bool, o: WireObject)
  {
    && Varint.IsEncoding(o.delta)
    && (if hasExtensions then Varint.IsEncoding(o.extLen) && Varint.Value(o.extLen) == |o.ext|
        else o.extLen == [] && o.ext == [])
    && (match o
        case WithPayload(_, _, _, len, payload) => Varint.IsEncoding(len) && Varint.Value(len) == |payload| > 0
        case WithStatus(_, _, _, zero, status) =>
          Varint.IsEncoding(zero) && Varint.Value(zero) == 0 && Varint.IsEncoding(status))
  }

  function BodyOnWire(o: WireObject): seq<byte>
  {
    match o
    case WithPayload(_, _, _, len, payload) => len + payload
    case WithStatus(_, _, _, zero, status) => zero + status
  }

  function BodyRegions(hasExtensions: bool, o: WireObject): seq<nat>
    requires Consistent(hasExtensions, o)
  {
    match o
    case WithPayload(_, _, _, len, payload) => VarintRegions(len) + [|payload|]
    case WithStatus(_, _, _, zero, status) => VarintRegions(zero) + VarintRegions(status)
  }

  function ExtensionRegions(hasExtensions: bool, o: WireObject): seq<nat>
    requires Consistent(hasExtensions, o)
  {
    if !hasExtensions then [] else VarintRegions(o.extLen) + (if o.ext == [] then [] else [|o.ext|])
  }

  lemma RegionsOfExtensions(at: Place, o: WireObject, tail: seq<byte>)
    requires Consistent(at.hasExtensions, o)
    ensures var delta := Varint.Value(o.delta);
            Regions(Accept(ObjectDelta(at), delta).next, o.extLen + (o.ext + tail))
            == ExtensionRegions(at.hasExtensions, o) + Regions(First(PayloadLength(at, delta, o.ext)), tail)
  {
    hide Regions, VarintRegions, Varint.Value;
    var delta := Varint.Value(o.delta);
    assert [] + tail == tail;
    if at.hasExtensions {
      RegionsOfVarint(ExtensionsLength(at, delta), o.extLen, o.ext + tail);
      if o.ext != [] { RegionsOfBytes(Extensions(at, delta), o.ext, tail); }
    }
  }

  lemma RegionsOfBody(at: Place, o: WireObject, tail: seq<byte>)
    requires Consistent(at.hasExtensions, o)
    ensures var delta := Varint.Value(o.delta);
            Regions(First(PayloadLength(at, delta, o.ext)), BodyOnWire(o) + tail)
            == BodyRegions(at.hasExtensions, o)
               + Regions(First(ObjectDelta(at.(prev := Some(NextID(at.prev, delta))))), tail)
  {
    hide Regions, VarintRegions, Varint.Value, Accept, AcceptBytes, NextID;
    var delta := Varint.Value(o.delta);
    var f := PayloadLength(at, delta, o.ext);
    match o
    case WithPayload(_, _, _, len, payload) =>
      assert BodyOnWire(o) + tail == len + (payload + tail);
      AfterPayload(at, delta, o.ext, payload);
      RegionsOfVarint(f, len, payload + tail);
      RegionsOfBytes(PayloadBytes(at, delta, o.ext), payload, tail);
    case WithStatus(_, _, _, zero, status) =>
      assert BodyOnWire(o) + tail == zero + (status + tail);
      AfterStatus(at, delta, o.ext, Varint.Value(status));
      RegionsOfVarint(f, zero, status + tail);
      RegionsOfVarint(StatusCode(at, delta, o.ext), status, tail);
  }

  /** A positive length leads to the payload, and that to the next object. */
  lemma AfterPayload(at: Place, delta: uint64, ext: seq<byte>, payload: seq<byte>)
    requires 0 < |payload| < TWO_64
    ensures Accept(PayloadLength(at, delta, ext), |payload|).next == Fixed(PayloadBytes(at, delta, ext), |payload|)
    ensures AcceptBytes(PayloadBytes(at, delta, ext), payload).next
            == First(ObjectDelta(at.(prev := Some(NextID(at.prev, delta)))))
  {}

  /** Length 0 leads to the status, and that to the next object. */
  lemma AfterStatus(at: Place, delta: uint64, ext: seq<byte>, code: uint64)
    ensures Accept(PayloadLength(at, delta, ext), 0).next == First(StatusCode(at, delta, ext))
    ensures Accept(StatusCode(at, delta, ext), code).next
            == First(ObjectDelta(at.(prev := Some(NextID(at.prev, delta)))))
  {}

  lemma RegionsOfObject(at: Place, o: WireObject, tail: seq<byte>)
    requires Consistent(at.hasExtensions, o)
    ensures Regions(First(ObjectDelta(at)), o.delta + (o.extLen + (o.ext + (BodyOnWire(o) + tail))))
            == VarintRegions(o.delta) + ExtensionRegions(at.hasExtensions, o) + BodyRegions(at.hasExtensions, o)
               + Regions(First(ObjectDelta(at.(prev := Some(NextID(at.prev, Varint.Value(o.delta)))))), tail)
  {
    hide Regions, VarintRegions, Varint.Value, BodyOnWire, BodyRegions, ExtensionRegions, Accept;
    RegionsOfVarint(ObjectDelta(at), o.delta, o.extLen + (o.ext + (BodyOnWire(o) + tail)));
    RegionsOfExtensions(at, o, BodyOnWire(o) + tail);
    RegionsOfBody(at, o, tail);
  }

  /** The header of a subgroup stream after its type, its varints in any
      encoding: alias, group, the subgroup ID if the type has one, the priority. */
  lemma RegionsOfHeader(t: uint64, alias: seq<byte>, group: seq<byte>, subgroup: seq<byte>, priority: byte,
                        tail: seq<byte>)
    requires IsSubgroupStreamType(t) && Varint.IsEncoding(alias) && Varint.IsEncoding(group)
    requires if HasSubgroupID(t) then Varint.IsEncoding(subgroup) else subgroup == []
    ensures Regions(First(Alias(Blank(t))), alias + (group + (subgroup + ([priority] + tail))))
            == VarintRegions(alias) + VarintRegions(group)
               + (if HasSubgroupID(t) then VarintRegions(subgroup) else []) + [1]
               + Regions(First(ObjectDelta(Place(HasExtensions(t), None))), tail)
  {
    hide Regions, VarintRegions, Varint.Value, Feed;
    var h1 := Blank(t).(trackAlias := Varint.Value(alias));
    var h2 := h1.(groupID := Varint.Value(group));
    RegionsOfVarint(Alias(Blank(t)), alias, group + (subgroup + ([priority] + tail)));
    RegionsOfVarint(Group(h1), group, subgroup + ([priority] + tail));
    if HasSubgroupID(t) {
      RegionsOfVarint(SubgroupID(h2), subgroup, [priority] + tail);
      RegionsOfBytes(Priority(h2.(subgroupID := Varint.Value(subgroup))), [priority], tail);
    } else {
      assert subgroup + ([priority] + tail) == [priority] + tail;
      RegionsOfBytes(Priority(h2), [priority], tail);
    }
  }

  /** What is read from an object on the wire: all of its fields. */
  function OffWire(prev: Option<uint64>, o: WireObject): SubgroupObject
    requires Varint.IsEncoding(o.delta) && (o.WithStatus? ==> Varint.IsEncoding(o.status))
    requires o.WithPayload? ==> |o.payload| < TWO_64
  {
    var d := Varint.Value(o.delta);
    match o
    case WithPayload(_, _, ext, _, payload) => SubgroupObject(NextID(prev, d), d, 0, ext, payload, |payload|, false)
    case WithStatus(_, _, ext, _, status) =>
      SubgroupObject(NextID(prev, d), d, Varint.Value(status), ext, [], 0, true)
  }

  lemma WireObjectIsRead(at: Place, o: WireObject, tail: seq<byte>)
    requires Consistent(at.hasExtensions, o)
    ensures o.WithPayload? ==> |o.payload| < TWO_64
    ensures ReadObject(at.hasExtensions, at.prev, o.delta + (o.extLen + (o.ext + (BodyOnWire(o) + tail))))
            == Got(OffWire(at.prev, o), tail)
  {
    hide Varint.Read, Varint.IsEncoding, Varint.Value, NextID, ReadExtensions, ReadObjectBody, BodyOnWire;
    var s2 := BodyOnWire(o) + tail;
    Varint.ReadSplits(o.delta, o.extLen + (o.ext + s2));
    WireExtensionsAreRead(at.hasExtensions, o, s2);
    WireBodyIsRead(at.hasExtensions, o, tail);
  }

  lemma WireExtensionsAreRead(hasExtensions: bool, o: WireObject, s: seq<byte>)
    requires Consistent(hasExtensions, o)
    ensures ReadExtensions(hasExtensions, o.extLen + (o.ext + s)) == Got(o.ext, s)
  {
    hide Varint.Read, Varint.IsEncoding, Varint.Value;
    if hasExtensions {
      Varint.ReadSplits(o.extLen, o.ext + s);
      TakeExact(o.ext, s);
      assert o.ext == [] ==> o.ext + s == s;
    } else {
      assert o.extLen + (o.ext + s) == s;
    }
  }

  lemma WireBodyIsRead(hasExtensions: bool, o: WireObject, tail: seq<byte>)
    requires Consistent(hasExtensions, o)
    ensures o.WithPayload? ==> 0 < |o.payload| < TWO_64
    ensures ReadObjectBody(BodyOnWire(o) + tail) ==
            match o
            case WithPayload(_, _, _, _, payload) => Got(Payload(payload), tail)
            case WithStatus(_, _, _, _, status) => Got(Status(Varint.Value(status)), tail)
  {
    hide Varint.Read, Varint.IsEncoding, Varint.Value;
    match o
    case WithPayload(_, _, _, len, payload) =>
      assert BodyOnWire(o) + tail == len + (payload + tail);
      Varint.ReadSplits(len, payload + tail);
      TakeExact(payload, tail);
    case WithStatus(_, _, _, zero, status) =>
      assert BodyOnWire(o) + tail == zero + (status + tail);
      Varint.ReadSplits(zero, status + tail);
      Varint.ReadSplits(status, tail);
  }

  // ---------- which handler, which messages ----------

  /** The type of a stream decides: 0x2F00 for control, 0x10 to 0x15 and 0x18 to
      0x1d for objects; any other stream is left alone. */
  lemma StreamTypes(e: seq<byte>, rest: seq<byte>)
    requires Varint.IsEncoding(e)
    ensures var t := Varint.Value(e);
            HandleUni(e + rest) ==
            if t == 0x2F00 then HandleControl(t, rest)
            else if t / 16 == 1 && t / 2 % 4 < 3 then HandleSubgroup(t, rest)
            else Outcome([], None)
  {
    hide Varint.Read, Varint.IsEncoding, Varint.Value, HandleControl, HandleSubgroup;
    Varint.ReadSplits(e, rest);
    FlagsOfBlank(Varint.Value(e));
  }

  /** A message is rejected exactly if its type is 0x2F00 and its payload does
      not decode, with the decoder's error; any other one is dispatched. */
  lemma MessageIsDispatched(e: seq<byte>, body: seq<byte>, rest: seq<byte>)
    requires Varint.IsEncoding(e) && |body| <= 65535
    ensures var t := Varint.Value(e);
            ControlLoop(e + (ToBytes(|body|, 2) + body + rest)) ==
            if t == 0x2F00 && KeyValue.Decode(body).Err? then Outcome([], Some(KeyValue.Decode(body).error))
            else After([Dispatched(Frame(t, body))], ControlLoop(rest))
  {
    hide Varint.Read, Varint.IsEncoding, Varint.Value, Frames.ReadBody, KeyValue.Decode, ToBytes;
    Varint.ReadSplits(e, ToBytes(|body|, 2) + body + rest);
    Frames.BodyRoundTrip(body, rest);
  }

  // ---------- the shared first varint ----------

  /** On a stream that starts with 0x2F00, taking the stream type for the type
      of the first message dispatches what reading messages from byte 0 does. */
  lemma FirstVarintIsShared(s: seq<byte>)
    requires Varint.Read(s).Got? && Varint.Read(s).value == SETUP
    ensures AsPosted(HandleUni(s)) == AsPosted(ControlLoop(s))
  {
    hide Varint.Read, DispatchError, Frames.ReadBody;
  }

  /** If every message is acceptable, the messages dispatched are the messages
      that reading until the end returns. */
  lemma {:induction false} LoopDispatchesAll(s: seq<byte>)
    requires forall f :: f in Frames.ReadAll(s).0 ==> DispatchError(f) == None
    ensures ControlLoop(s) == Outcome(DispatchEvents(Frames.ReadAll(s).0), Quiet(Frames.ReadAll(s).1))
    decreases |s|
  {
    hide Frames.Read, DispatchError;
    var p := Frames.Read(s);
    if p.Got? {
      var fs := Frames.ReadAll(p.rest).0;
      assert Frames.ReadAll(s).0 == [p.value] + fs;
      assert ([p.value] + fs)[0] in Frames.ReadAll(s).0;
      assert forall f :: f in fs ==> f in [p.value] + fs;
      LoopDispatchesAll(p.rest);
    }
  }

  function DispatchEvents(fs: seq<Frame>): seq<Event>
  {
    if fs == [] then [] else [Dispatched(fs[0])] + DispatchEvents(fs[1..])
  }

  /** Cutting a control stream whose messages are all acceptable: exactly the
      messages wholly before the cut are dispatched. */
  lemma CutControl(s: seq<byte>, k: nat)
    requires k <= |s| && Varint.Read(s).Got? && Varint.Read(s).value == SETUP
    requires forall f :: f in Frames.ReadAll(s).0 ==> DispatchError(f) == None
    ensures Frames.WholeMessages(s, k) <= |Frames.ReadAll(s).0|
    ensures HandleUni(s[..k]).events == DispatchEvents(Frames.ReadAll(s).0[..Frames.WholeMessages(s, k)])
  {
    hide Varint.Read, DispatchError, Frames.ReadBody, Frames.WholeMessages, HandleControl, HandleSubgroup, ControlLoop;
    var cut := s[..k];
    Frames.ReadAllCut(s, k);
    assert cut + s[k..] == s;
    if Varint.Read(cut).Got? {
      Varint.ReadExtends(cut, s[k..]);
      FirstVarintIsShared(cut);
      LoopDispatchesAll(cut);
    } else {
      assert Frames.Read(cut).Fail?;
    }
  }

  /** A stream that ends between the type and the length of its SETUP is not
      reported; one byte later it is. */
  lemma EarlyEndHappens(body: seq<byte>)
    requires |body| <= MAX_FRAME_LEN
    ensures var s, k := Frames.Encode(Frame(SETUP, body)), |Varint.Encode(SETUP)|;
            && k + 2 <= |s|
            && HandleUni(s[..k]) == Outcome([], Some(EOF)) && Posted(HandleUni(s[..k]).err) == None
            && HandleUni(s[..k + 1]) == Outcome([], Some(UnexpectedEOF))
  {
    hide Varint.Encode, Varint.Read, ToBytes;
    var s, e, len := Frames.Encode(Frame(SETUP, body)), Varint.Encode(SETUP), ToBytes(|body|, 2);
    assert s[..|e|] == e + [] && s[..|e| + 1] == e + len[..1];
    Varint.RoundTrip(SETUP, []);
    Varint.RoundTrip(SETUP, len[..1]);
  }
}
