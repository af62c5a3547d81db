// Subgroup data streams (draft-ietf-moq-transport-18, section 11.4.2): a
// header, then objects with delta-coded IDs until the stream ends.
module Subgroup {
  import opened Bytes
  import opened Input
  import Varint

  // ---------- stream types ----------

  predicate IsSubgroupStreamType(t: uint64)
  {
    0x10 <= t <= 0x15 || 0x18 <= t <= 0x1d
  }

  predicate HasSubgroupID(t: uint64) { t in {0x14, 0x15, 0x1c, 0x1d} }

  predicate HasExtensions(t: uint64) { t in {0x11, 0x13, 0x15, 0x19, 0x1b, 0x1d} }

  predicate UsesFirstObjectID(t: uint64) { t in {0x12, 0x13, 0x1a, 0x1b} }

  // ---------- what is read ----------

  datatype Header = Header(
    typ: uint64,
    trackAlias: uint64,
    groupID: uint64,
    subgroupID: uint64,
    hasSubgroupID: bool,
    hasExtensions: bool,
    usesFirstObjectID: bool,
    endOfGroup: bool,
    publisherPriority: byte)

  /** A header of type t, before anything but the type is known. */
  function Blank(t: uint64): Header
  {
    Header(t, 0, 0, 0, HasSubgroupID(t), HasExtensions(t), UsesFirstObjectID(t), t >= 0x18, 0)
  }

  function ReadSubgroupID(t: uint64, s: seq<byte>): (p: Parse<uint64>)
    ensures p.Got? ==> |p.rest| <= |s|
  {
    if HasSubgroupID(t) then Varint.Read(s) else Got(0, s)
  }

  function ReadHeader(t: uint64, s: seq<byte>): (p: Parse<Header>)
    ensures p.Got? ==> |p.rest| < |s|
  {
    if !IsSubgroupStreamType(t) then Fail(NotSubgroupType)
    else
      match Varint.Read(s)
      case Fail(e) => Fail(e)
      case Got(alias, s1) =>
        match Varint.Read(s1)
        case Fail(e) => Fail(e)
        case Got(group, s2) =>
          match ReadSubgroupID(t, s2)
          case Fail(e) => Fail(e)
          case Got(subgroup, s3) =>
            match Take(s3, 1)
            case Fail(e) => Fail(e)
            case Got(priority, s4) =>
              Got(Blank(t).(trackAlias := alias, groupID := group, subgroupID := subgroup,
                            publisherPriority := priority[0]), s4)
  }

  datatype SubgroupObject = SubgroupObject(
    objectID: uint64,
    objectIDDelta: uint64,
    objectStatus: uint64,
    propertiesRaw: seq<byte>,
    payload: seq<byte>,
    payloadLen: uint64,
    isStatusObject: bool)

  /** The ID of the next object; the sum is not checked and wraps. */
  function NextID(prev: Option<uint64>, delta: uint64): uint64
  {
    match prev
    case None => delta
    case Some(p) => Add64(Add64(p, delta), 1)
  }

  function ReadExtensions(hasExtensions: bool, s: seq<byte>): (p: Parse<seq<byte>>)
    ensures p.Got? ==> |p.rest| <= |s|
  {
    if !hasExtensions then Got([], s)
    else
      match Varint.Read(s)
      case Fail(e) => Fail(e)
      case Got(len, rest) => if len > 0 then Take(rest, len) else Got([], rest)
  }

  datatype ObjectBody = Status(code: uint64) | Payload(bytes: seq<byte>)

  function ReadObjectBody(s: seq<byte>): (p: Parse<ObjectBody>)
    ensures p.Got? ==> |p.rest| < |s|
    ensures p.Got? && p.value.Payload? ==> 0 < |p.value.bytes| < TWO_64
  {
    match Varint.Read(s)
    case Fail(e) => Fail(e)
    case Got(len, rest) =>
      if len == 0 then
        match Varint.Read(rest)
        case Fail(e) => Fail(e)
        case Got(code, rest') => Got(Status(code), rest')
      else
        match Take(rest, len)
        case Fail(e) => Fail(e)
        case Got(bytes, rest') => Got(Payload(bytes), rest')
  }

  function Assemble(prev: Option<uint64>, delta: uint64, properties: seq<byte>, body: ObjectBody): SubgroupObject
    requires body.Payload? ==> |body.bytes| < TWO_64
  {
    match body
    case Status(code) => SubgroupObject(NextID(prev, delta), delta, code, properties, [], 0, true)
    case Payload(bytes) => SubgroupObject(NextID(prev, delta), delta, 0, properties, bytes, |bytes|, false)
  }

  /** One object after the object with ID prev. */
  function ReadObject(hasExtensions: bool, prev: Option<uint64>, s: seq<byte>): (p: Parse<SubgroupObject>)
    ensures p.Got? ==> |p.rest| < |s|
  {
    match Varint.Read(s)
    case Fail(e) => Fail(e)
    case Got(delta, s1) =>
      match ReadExtensions(hasExtensions, s1)
      case Fail(e) => Fail(e)
      case Got(properties, s2) =>
        match ReadObjectBody(s2)
        case Fail(e) => Fail(e)
        case Got(body, s3) => Got(Assemble(prev, delta, properties, body), s3)
  }

  /** Objects until a read fails, and the error of that read. */
  function ReadObjects(hasExtensions: bool, prev: Option<uint64>, s: seq<byte>): (r: (seq<SubgroupObject>, Error))
    decreases |s|
  {
    match ReadObject(hasExtensions, prev, s)
    case Fail(e) => ([], e)
    case Got(o, rest) =>
      var (os, e) := ReadObjects(hasExtensions, Some(o.objectID), rest);
      ([o] + os, e)
  }

  // ---------- the code ----------

  method ParseSubgroupHeader(r: Reader, t: uint64) returns (res: Result<Header>)
    requires r.Valid()
    modifies r`pos
    ensures IsSubgroupStreamType(t) ==> Agrees(res, ReadHeader(t, old(r.Rest())), r)
    ensures !IsSubgroupStreamType(t) ==> res == Err(NotSubgroupType) && r.pos == old(r.pos)
  {
    hide Varint.Read;
    if !IsSubgroupStreamType(t) {
      return Err(NotSubgroupType);
    }
    var h := Blank(t);
    var alias := Varint.ReadVarint(r);
    if alias.Err? {
      return Err(alias.error);
    }
    h := h.(trackAlias := alias.value);
    var group := Varint.ReadVarint(r);
    if group.Err? {
      return Err(group.error);
    }
    h := h.(groupID := group.value);
    if h.hasSubgroupID {
      var subgroup := Varint.ReadVarint(r);
      if subgroup.Err? {
        return Err(subgroup.error);
      }
      h := h.(subgroupID := subgroup.value);
    }
    var b := r.ReadFull(1);
    if b.Err? {
      return Err(b.error);
    }
    h := h.(publisherPriority := b.value[0]);
    return Ok(h);
  }

  class SubgroupObjectReader {
    const r: Reader
    const hasExtensions: bool
    var prevObjectID: Option<uint64>

    constructor (r: Reader, header: Header)
      ensures this.r == r && hasExtensions == header.hasExtensions && prevObjectID == None
    {
      this.r := r;
      this.hasExtensions := header.hasExtensions;
      this.prevObjectID := None;
    }

    /** A failed call leaves the previous ID alone. */
    method Next() returns (res: Result<SubgroupObject>)
      requires r.Valid()
      modifies this, r`pos
      ensures Agrees(res, ReadObject(hasExtensions, old(prevObjectID), old(r.Rest())), r)
      ensures prevObjectID == if res.Ok? then Some(res.value.objectID) else old(prevObjectID)
    {
      hide Varint.Read;
      var deltaRes := Varint.ReadVarint(r);
      if deltaRes.Err? {
        return Err(deltaRes.error);
      }
      var delta := deltaRes.value;
      var objID := delta;
      if prevObjectID != None {
        objID := Add64(Add64(prevObjectID.value, delta), 1);
      }
      var obj := SubgroupObject(objID, delta, 0, [], [], 0, false);

      if hasExtensions {
        var extLen := Varint.ReadVarint(r);
        if extLen.Err? {
          return Err(extLen.error);
        }
        if extLen.value > 0 {
          var properties := r.ReadFull(extLen.value);
          if properties.Err? {
            return Err(properties.error);
          }
          obj := obj.(propertiesRaw := properties.value);
        }
      }

      var payloadLen := Varint.ReadVarint(r);
      if payloadLen.Err? {
        return Err(payloadLen.error);
      }
      obj := obj.(payloadLen := payloadLen.value);
      if payloadLen.value == 0 {
        var status := Varint.ReadVarint(r);
        if status.Err? {
          return Err(status.error);
        }
        obj := obj.(objectStatus := status.value, isStatusObject := true);
      } else {
        var payload := r.ReadFull(payloadLen.value);
        if payload.Err? {
          return Err(payload.error);
        }
        obj := obj.(payload := payload.value, objectStatus := 0);
      }
      prevObjectID := Some(objID);
      return Ok(obj);
    }
  }

  // ---------- the stream a publisher writes ----------

  /** An object as the publisher sees it. */
  datatype PublishedObject = PublishedObject(id: uint64, properties: Slice, body: ObjectBody)

  /** A body the format can carry: a status, or a payload that is not empty. */
  predicate Fits(b: ObjectBody)
  {
    b.Payload? ==> 0 < |b.bytes| < TWO_64
  }

  /** Extension bytes only where the type allows them, and IDs that increase. */
  ghost predicate WellFormed(hasExtensions: bool, prev: Option<uint64>, os: seq<PublishedObject>)
    decreases os
  {
    os != [] ==>
      && Fits(os[0].body)
      && (!hasExtensions ==> os[0].properties == [])
      && (prev.Some? ==> prev.value < os[0].id)
      && WellFormed(hasExtensions, Some(os[0].id), os[1..])
  }

  function Delta(prev: Option<uint64>, id: uint64): uint64
    requires prev.Some? ==> prev.value < id
  {
    if prev.None? then id else id - prev.value - 1
  }

  function EncodeBody(b: ObjectBody): seq<byte>
    requires Fits(b)
  {
    match b
    case Status(code) => Varint.Encode(0) + Varint.Encode(code)
    case Payload(bytes) => Varint.Encode(|bytes|) + bytes
  }

  function EncodeExtensions(hasExtensions: bool, properties: Slice): seq<byte>
  {
    if hasExtensions then Varint.Encode(|properties|) + properties else []
  }

  function EncodeObject(hasExtensions: bool, prev: Option<uint64>, o: PublishedObject): seq<byte>
    requires Fits(o.body) && (prev.Some? ==> prev.value < o.id)
  {
    Varint.Encode(Delta(prev, o.id)) + (EncodeExtensions(hasExtensions, o.properties) + EncodeBody(o.body))
  }

  ghost function EncodeObjects(hasExtensions: bool, prev: Option<uint64>, os: seq<PublishedObject>): seq<byte>
    requires WellFormed(hasExtensions, prev, os)
    decreases os
  {
    if os == [] then []
    else EncodeObject(hasExtensions, prev, os[0]) + EncodeObjects(hasExtensions, Some(os[0].id), os[1..])
  }

  /** The accepted types and the flags of a header, read off the bits of the
      type: bit 0 for extensions, bits 1 and 2 for the subgroup ID (0: it is 0,
      1: it is the first object's ID, 2: it is in the header), bit 3 for the end
      of the group. */
  lemma FlagsAreBits(t: uint64, s: seq<byte>)
    ensures IsSubgroupStreamType(t) <==> t / 16 == 1 && t / 2 % 4 < 3
    ensures ReadHeader(t, s).Got? ==>
              var h := ReadHeader(t, s).value;
              && h.typ == t && t / 16 == 1 && t / 2 % 4 < 3
              && (h.hasExtensions <==> t % 2 == 1)
              && (h.usesFirstObjectID <==> t / 2 % 4 == 1)
              && (h.hasSubgroupID <==> t / 2 % 4 == 2)
              && (h.endOfGroup <==> t / 8 % 2 == 1)
              && (!h.hasSubgroupID ==> h.subgroupID == 0)
  {
    hide Varint.Read, Take;
    FlagsOfBlank(t);
  }

  lemma FlagsOfBlank(t: uint64)
    ensures IsSubgroupStreamType(t) <==> t / 16 == 1 && t / 2 % 4 < 3
    ensures IsSubgroupStreamType(t) ==>
              && (HasExtensions(t) <==> t % 2 == 1)
              && (UsesFirstObjectID(t) <==> t / 2 % 4 == 1)
              && (HasSubgroupID(t) <==> t / 2 % 4 == 2)
              && (t >= 0x18 <==> t / 8 % 2 == 1)
  {
    if 0x10 <= t < 0x20 {
      SixteenTypes(t);
    }
  }

  lemma SixteenTypes(t: uint64)
    requires 0x10 <= t < 0x20
    ensures t == 0x10 || t == 0x11 || t == 0x12 || t == 0x13 || t == 0x14 || t == 0x15 || t == 0x16 || t == 0x17
            || t == 0x18 || t == 0x19 || t == 0x1a || t == 0x1b || t == 0x1c || t == 0x1d || t == 0x1e || t == 0x1f
  {}

  /** A header whose flags are those of its type. */
  predicate ValidHeader(h: Header)
  {
    && IsSubgroupStreamType(h.typ)
    && h == Blank(h.typ).(trackAlias := h.trackAlias, groupID := h.groupID, subgroupID := h.subgroupID,
                          publisherPriority := h.publisherPriority)
    && (!h.hasSubgroupID ==> h.subgroupID == 0)
  }

  /** The header after the stream type. */
  function EncodeHeader(h: Header): seq<byte>
  {
    Varint.Encode(h.trackAlias) + (Varint.Encode(h.groupID)
      + ((if HasSubgroupID(h.typ) then Varint.Encode(h.subgroupID) else []) + [h.publisherPriority]))
  }

  /** What a reader should make of an object: all its fields, unchanged. */
  function AsRead(prev: Option<uint64>, o: PublishedObject): SubgroupObject
    requires Fits(o.body) && (prev.Some? ==> prev.value < o.id)
  {
    SubgroupObject(
      objectID := o.id,
      objectIDDelta := Delta(prev, o.id),
      objectStatus := if o.body.Status? then o.body.code else 0,
      propertiesRaw := o.properties,
      payload := if o.body.Status? then [] else o.body.bytes,
      payloadLen := if o.body.Status? then 0 else |o.body.bytes|,
      isStatusObject := o.body.Status?)
  }

  ghost function AllAsRead(hasExtensions: bool, prev: Option<uint64>, os: seq<PublishedObject>)
    : (rs: seq<SubgroupObject>)
    requires WellFormed(hasExtensions, prev, os)
    ensures |rs| == |os|
    decreases os
  {
    if os == [] then [] else [AsRead(prev, os[0])] + AllAsRead(hasExtensions, Some(os[0].id), os[1..])
  }

  // ---------- round trip ----------

  lemma HeaderRoundTrip(h: Header, suffix: seq<byte>)
    requires ValidHeader(h)
    ensures ReadHeader(h.typ, EncodeHeader(h) + suffix) == Got(h, suffix)
  {
    hide Varint.Encode, Varint.Read, Take;
    var s3 := [h.publisherPriority] + suffix;
    var subgroup := if HasSubgroupID(h.typ) then Varint.Encode(h.subgroupID) else [];
    var s2 := subgroup + s3;
    var s1 := Varint.Encode(h.groupID) + s2;
    assert EncodeHeader(h) + suffix == Varint.Encode(h.trackAlias) + s1;
    Varint.RoundTrip(h.trackAlias, s1);
    Varint.RoundTrip(h.groupID, s2);
    if HasSubgroupID(h.typ) {
      Varint.RoundTrip(h.subgroupID, s3);
    } else {
      assert s2 == s3;
    }
    TakeExact([h.publisherPriority], suffix);
  }

  lemma BodyRoundTrip(b: ObjectBody, suffix: seq<byte>)
    requires Fits(b)
    ensures ReadObjectBody(EncodeBody(b) + suffix) == Got(b, suffix)
  {
    hide Varint.Encode, Varint.Read;
    match b
    case Status(code) =>
      assert EncodeBody(b) + suffix == Varint.Encode(0) + (Varint.Encode(code) + suffix);
      Varint.RoundTrip(0, Varint.Encode(code) + suffix);
      Varint.RoundTrip(code, suffix);
    case Payload(bytes) =>
      assert EncodeBody(b) + suffix == Varint.Encode(|bytes|) + (bytes + suffix);
      Varint.RoundTrip(|bytes|, bytes + suffix);
      TakeExact(bytes, suffix);
  }

  lemma ExtensionsRoundTrip(hasExtensions: bool, properties: Slice, suffix: seq<byte>)
    requires !hasExtensions ==> properties == []
    ensures ReadExtensions(hasExtensions, EncodeExtensions(hasExtensions, properties) + suffix)
            == Got(properties, suffix)
  {
    hide Varint.Encode, Varint.Read;
    if hasExtensions {
      assert EncodeExtensions(hasExtensions, properties) + suffix
             == Varint.Encode(|properties|) + (properties + suffix);
      Varint.RoundTrip(|properties|, properties + suffix);
      TakeExact(properties, suffix);
      assert [] + suffix == suffix;
    } else {
      assert [] + suffix == suffix;
    }
  }

  lemma ObjectRoundTrip(hasExtensions: bool, prev: Option<uint64>, o: PublishedObject, suffix: seq<byte>)
    requires Fits(o.body) && (prev.Some? ==> prev.value < o.id)
    requires !hasExtensions ==> o.properties == []
    ensures ReadObject(hasExtensions, prev, EncodeObject(hasExtensions, prev, o) + suffix)
            == Got(AsRead(prev, o), suffix)
  {
    hide Varint.Encode, Varint.Read, EncodeBody, EncodeExtensions, ReadObjectBody, ReadExtensions;
    var delta := Delta(prev, o.id);
    var s2 := EncodeBody(o.body) + suffix;
    var s1 := EncodeExtensions(hasExtensions, o.properties) + s2;
    assert EncodeObject(hasExtensions, prev, o) + suffix == Varint.Encode(delta) + s1;
    Varint.RoundTrip(delta, s1);
    ExtensionsRoundTrip(hasExtensions, o.properties, s2);
    BodyRoundTrip(o.body, suffix);
    assert NextID(prev, delta) == o.id;
  }

  /** Every object comes back, in order, and then the stream ends cleanly. */
  lemma {:induction false} ObjectsRoundTrip(hasExtensions: bool, prev: Option<uint64>, os: seq<PublishedObject>)
    requires WellFormed(hasExtensions, prev, os)
    ensures ReadObjects(hasExtensions, prev, EncodeObjects(hasExtensions, prev, os))
            == (AllAsRead(hasExtensions, prev, os), EOF)
    decreases os
  {
    hide EncodeObject, ReadObject, AsRead;
    if os == [] {
      EndOfObjects(hasExtensions, prev);
    } else {
      ObjectRoundTrip(hasExtensions, prev, os[0], EncodeObjects(hasExtensions, Some(os[0].id), os[1..]));
      ObjectsRoundTrip(hasExtensions, Some(os[0].id), os[1..]);
      assert AsRead(prev, os[0]).objectID == os[0].id by { IDIsKept(prev, os[0]); }
    }
  }

  lemma EndOfObjects(hasExtensions: bool, prev: Option<uint64>)
    ensures ReadObject(hasExtensions, prev, []) == Fail(EOF)
  {}

  lemma IDIsKept(prev: Option<uint64>, o: PublishedObject)
    requires Fits(o.body) && (prev.Some? ==> prev.value < o.id)
    ensures AsRead(prev, o).objectID == o.id
  {}

  /** The whole stream after its type: header, objects, end of stream. */
  lemma StreamRoundTrip(h: Header, os: seq<PublishedObject>)
    requires ValidHeader(h) && WellFormed(h.hasExtensions, None, os)
    ensures var body := EncodeObjects(h.hasExtensions, None, os);
            && ReadHeader(h.typ, EncodeHeader(h) + body) == Got(h, body)
            && ReadObjects(h.hasExtensions, None, body) == (AllAsRead(h.hasExtensions, None, os), EOF)
  {
    HeaderRoundTrip(h, EncodeObjects(h.hasExtensions, None, os));
    ObjectsRoundTrip(h.hasExtensions, None, os);
  }

  // ---------- truncation ----------

  lemma BodyExtends(s: seq<byte>, t: seq<byte>)
    requires ReadObjectBody(s).Got?
    ensures ReadObjectBody(s + t) == Got(ReadObjectBody(s).value, ReadObjectBody(s).rest + t)
  {
    hide Varint.Read;
    Varint.ReadExtends(s, t);
    var len, rest := Varint.Read(s).value, Varint.Read(s).rest;
    if len == 0 { Varint.ReadExtends(rest, t); } else { TakeExtends(rest, len, t); }
  }

  lemma ExtensionsExtend(hasExtensions: bool, s: seq<byte>, t: seq<byte>)
    requires ReadExtensions(hasExtensions, s).Got?
    ensures ReadExtensions(hasExtensions, s + t)
            == Got(ReadExtensions(hasExtensions, s).value, ReadExtensions(hasExtensions, s).rest + t)
  {
    hide Varint.Read;
    if hasExtensions {
      Varint.ReadExtends(s, t);
      if Varint.Read(s).value > 0 { TakeExtends(Varint.Read(s).rest, Varint.Read(s).value, t); }
    }
  }

  /** An object that could be read is read the same with more bytes behind it. */
  lemma ObjectExtends(hasExtensions: bool, prev: Option<uint64>, s: seq<byte>, t: seq<byte>)
    requires ReadObject(hasExtensions, prev, s).Got?
    ensures ReadObject(hasExtensions, prev, s + t)
            == Got(ReadObject(hasExtensions, prev, s).value, ReadObject(hasExtensions, prev, s).rest + t)
  {
    hide Varint.Read, ReadObjectBody, ReadExtensions, Assemble;
    Varint.ReadExtends(s, t);
    var s1 := Varint.Read(s).rest;
    ExtensionsExtend(hasExtensions, s1, t);
    BodyExtends(ReadExtensions(hasExtensions, s1).rest, t);
  }

  lemma HeaderExtends(typ: uint64, s: seq<byte>, t: seq<byte>)
    requires ReadHeader(typ, s).Got?
    ensures ReadHeader(typ, s + t) == Got(ReadHeader(typ, s).value, ReadHeader(typ, s).rest + t)
  {
    hide Varint.Read;
    Varint.ReadExtends(s, t);
    var s1 := Varint.Read(s).rest;
    Varint.ReadExtends(s1, t);
    var s2 := Varint.Read(s1).rest;
    if HasSubgroupID(typ) { Varint.ReadExtends(s2, t); }
    TakeExtends(ReadSubgroupID(typ, s2).rest, 1, t);
  }

  /** What an object consumed is read the same in front of anything. */
  lemma ObjectSplits(hasExtensions: bool, prev: Option<uint64>, s: seq<byte>, t: seq<byte>)
    requires ReadObject(hasExtensions, prev, s).Got?
    ensures var p := ReadObject(hasExtensions, prev, s); var used := s[..|s| - |p.rest|];
            s == used + p.rest && ReadObject(hasExtensions, prev, used + t) == Got(p.value, t)
  {
    hide Varint.Read, Varint.IsEncoding, ReadObjectBody, ReadExtensions, Assemble;
    var p := ReadObject(hasExtensions, prev, s);
    var e := Varint.ReadConsumes(s);
    var s1 := Varint.Read(s).rest;
    var s2 := ReadExtensions(hasExtensions, s1).rest;
    var body := s2[..|s2| - |p.rest|];
    var ext := s1[..|s1| - |s2|];
    BodySplits(s2, t);
    ExtensionsSplit(hasExtensions, s1, body + t);
    Varint.ReadSplits(e, ext + (body + t));
    Regroup(s, e, ext, body, p.rest, t);
  }

  lemma Regroup(s: seq<byte>, e: seq<byte>, ext: seq<byte>, body: seq<byte>, rest: seq<byte>, t: seq<byte>)
    requires s == e + (ext + (body + rest))
    ensures s[..|s| - |rest|] == e + (ext + body)
    ensures s == s[..|s| - |rest|] + rest && s[..|s| - |rest|] + t == e + (ext + (body + t))
  {}

  lemma RegroupTwo(s: seq<byte>, e: seq<byte>, body: seq<byte>, rest: seq<byte>, t: seq<byte>)
    requires s == e + (body + rest)
    ensures s[..|s| - |rest|] == e + body
    ensures s == s[..|s| - |rest|] + rest && s[..|s| - |rest|] + t == e + (body + t)
  {}

  lemma ExtensionsSplit(hasExtensions: bool, s: seq<byte>, t: seq<byte>)
    requires ReadExtensions(hasExtensions, s).Got?
    ensures var p := ReadExtensions(hasExtensions, s); var used := s[..|s| - |p.rest|];
            s == used + p.rest && ReadExtensions(hasExtensions, used + t) == Got(p.value, t)
  {
    hide Varint.Read, Varint.IsEncoding, Varint.Value;
    var p := ReadExtensions(hasExtensions, s);
    if hasExtensions {
      var e := Varint.ReadConsumes(s);
      var s1 := Varint.Read(s).rest;
      assert s1 == p.value + p.rest;
      RegroupTwo(s, e, p.value, p.rest, t);
      Varint.ReadSplits(e, p.value + t);
      TakeExact(p.value, t);
    } else {
      assert s[..0] + t == t && s[..0] + s == s;
    }
  }

  lemma BodySplits(s: seq<byte>, t: seq<byte>)
    requires ReadObjectBody(s).Got?
    ensures var p := ReadObjectBody(s); var used := s[..|s| - |p.rest|];
            s == used + p.rest && ReadObjectBody(used + t) == Got(p.value, t)
  {
    hide Varint.Read, Varint.IsEncoding, Varint.Value, Take;
    var p := ReadObjectBody(s);
    var e := Varint.ReadConsumes(s);
    var len, s1 := Varint.Read(s).value, Varint.Read(s).rest;
    var more: seq<byte>;
    if len == 0 {
      more := Varint.ReadConsumes(s1);
      Varint.ReadSplits(more, t);
    } else {
      more := TakeSplits(s1, len, t);
    }
    RegroupTwo(s, e, more, p.rest, t);
    Varint.ReadSplits(e, more + t);
  }

  lemma TakeSplits(s: seq<byte>, n: nat, t: seq<byte>) returns (used: seq<byte>)
    requires Take(s, n).Got?
    ensures s == used + Take(s, n).rest && Take(s, n).value == used && Take(used + t, n) == Got(used, t)
  {
    used := s[..n];
    TakeExact(used, t);
  }

  /** The number of objects that lie wholly within the first k bytes, whatever
      the bytes are. */
  function WholeObjects(hasExtensions: bool, prev: Option<uint64>, s: seq<byte>, k: nat): nat
    decreases |s|
  {
    match ReadObject(hasExtensions, prev, s)
    case Fail(_) => 0
    case Got(o, rest) =>
      if |s| - |rest| > k then 0
      else 1 + WholeObjects(hasExtensions, Some(o.objectID), rest, k - (|s| - |rest|))
  }

  /** Cutting any bytes anywhere: exactly the objects wholly before the cut are
      read, as they would be without the cut. */
  lemma {:induction false} ReadObjectsCut(hasExtensions: bool, prev: Option<uint64>, s: seq<byte>, k: nat)
    requires k <= |s|
    ensures var os, n := ReadObjects(hasExtensions, prev, s).0, WholeObjects(hasExtensions, prev, s, k);
            n <= |os| && ReadObjects(hasExtensions, prev, s[..k]).0 == os[..n]
    decreases |s|
  {
    hide ReadObject;
    var cut, p := s[..k], ReadObject(hasExtensions, prev, s);
    assert cut + s[k..] == s;
    if ReadObject(hasExtensions, prev, cut).Got? { ObjectExtends(hasExtensions, prev, cut, s[k..]); }
    if p.Got? && |s| - |p.rest| <= k {
      var n := |s| - |p.rest|;
      ObjectSplits(hasExtensions, prev, s, p.rest[..k - n]);
      assert cut == s[..n] + p.rest[..k - n];
      ReadObjectsCut(hasExtensions, Some(p.value.objectID), p.rest, k - n);
    }
  }

  /** The same for a publisher's objects, by the lengths of their encodings. */
  ghost function Whole(hasExtensions: bool, prev: Option<uint64>, os: seq<PublishedObject>, k: nat): (n: nat)
    requires WellFormed(hasExtensions, prev, os)
    ensures n <= |os|
    decreases os
  {
    if os == [] then 0
    else
      var len := |EncodeObject(hasExtensions, prev, os[0])|;
      if k < len then 0 else 1 + Whole(hasExtensions, Some(os[0].id), os[1..], k - len)
  }

  /** A proper prefix of an encoded object is not readable: no part of a
      payload is ever returned. */
  lemma PartialObject(hasExtensions: bool, prev: Option<uint64>, o: PublishedObject, suffix: seq<byte>, k: nat)
    requires Fits(o.body) && (prev.Some? ==> prev.value < o.id)
    requires !hasExtensions ==> o.properties == []
    requires k < |EncodeObject(hasExtensions, prev, o)|
    ensures ReadObject(hasExtensions, prev, (EncodeObject(hasExtensions, prev, o) + suffix)[..k]).Fail?
  {
    hide EncodeObject, ReadObject, AsRead;
    var e := EncodeObject(hasExtensions, prev, o);
    assert (e + suffix)[..k] == e[..k] && e[..k] + e[k..] == e + [];
    ObjectRoundTrip(hasExtensions, prev, o, []);
    if ReadObject(hasExtensions, prev, e[..k]).Got? {
      ObjectExtends(hasExtensions, prev, e[..k], e[k..]);
    }
  }

  /** Cutting the object part of a stream anywhere: exactly the whole objects
      are returned, then an error. */
  lemma {:induction false} Truncated(hasExtensions: bool, prev: Option<uint64>, os: seq<PublishedObject>, k: nat)
    requires WellFormed(hasExtensions, prev, os)
    requires k <= |EncodeObjects(hasExtensions, prev, os)|
    ensures ReadObjects(hasExtensions, prev, EncodeObjects(hasExtensions, prev, os)[..k]).0
            == AllAsRead(hasExtensions, prev, os)[..Whole(hasExtensions, prev, os, k)]
    decreases os
  {
    hide EncodeObject, ReadObject, AsRead;
    if os == [] {
      EndOfObjects(hasExtensions, prev);
    } else {
      var e := EncodeObject(hasExtensions, prev, os[0]);
      var rest := EncodeObjects(hasExtensions, Some(os[0].id), os[1..]);
      if k < |e| {
        PartialObject(hasExtensions, prev, os[0], rest, k);
      } else {
        assert (e + rest)[..k] == e + rest[..k - |e|];
        ObjectRoundTrip(hasExtensions, prev, os[0], rest[..k - |e|]);
        IDIsKept(prev, os[0]);
        Truncated(hasExtensions, Some(os[0].id), os[1..], k - |e|);
      }
    }
  }

  /** Cutting a whole stream: without all of the header nothing is read; with
      it, exactly the objects that are wholly there. */
  lemma TruncatedStream(h: Header, os: seq<PublishedObject>, k: nat)
    requires ValidHeader(h) && WellFormed(h.hasExtensions, None, os)
    requires k <= |EncodeHeader(h) + EncodeObjects(h.hasExtensions, None, os)|
    ensures var cut := (EncodeHeader(h) + EncodeObjects(h.hasExtensions, None, os))[..k];
            var n := |EncodeHeader(h)|;
            if k < n then
              ReadHeader(h.typ, cut).Fail?
            else
              && ReadHeader(h.typ, cut) == Got(h, cut[n..])
              && ReadObjects(h.hasExtensions, None, cut[n..]).0
                 == AllAsRead(h.hasExtensions, None, os)[..Whole(h.hasExtensions, None, os, k - n)]
  {
    hide EncodeHeader, ReadHeader, ValidHeader, EncodeObjects, ReadObjects, AllAsRead, Whole, WellFormed;
    var e, body := EncodeHeader(h), EncodeObjects(h.hasExtensions, None, os);
    var cut := (e + body)[..k];
    if k < |e| {
      assert cut == e[..k] && e[..k] + e[k..] == e + [];
      HeaderRoundTrip(h, []);
      if ReadHeader(h.typ, cut).Got? { HeaderExtends(h.typ, cut, e[k..]); }
    } else {
      assert cut == e + body[..k - |e|] && cut[|e|..] == body[..k - |e|];
      HeaderRoundTrip(h, body[..k - |e|]);
      Truncated(h.hasExtensions, None, os, k - |e|);
    }
  }
}
