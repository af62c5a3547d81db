// Incoming unidirectional streams: what the handlers make of a byte string
// that ends, and a second form of them as a machine that issues one read at a
// time. The machine makes it possible to say where a stream may be cut.
module UniStream {
  import opened Bytes
  import opened Input
  import opened Frames
  import opened Subgroup
  import KeyValue
  import Varint

  const SETUP: uint64 := 0x2F00

  /** What a handler has done so far that others can see. */
  datatype Event =
    | Dispatched(message: Frame)
    | HeaderRead(header: Header)
    | ObjectRead(object: SubgroupObject)

  /** Everything a handler did, and the error it returned. */
  datatype Outcome = Outcome(events: seq<Event>, err: Option<Error>)

  function After(events: seq<Event>, o: Outcome): Outcome
  {
    o.(events := events + o.events)
  }

  /** A loop that treats the end of the stream as success. */
  function Quiet(e: Error): Option<Error>
  {
    if e == EOF then None else Some(e)
  }

  /** The filter of acceptUniStreams: an error that is (or wraps) EOF is not posted. */
  function Posted(err: Option<Error>): Option<Error>
  {
    if err == Some(EOF) then None else err
  }

  // ---------- the handlers as nested parsers ----------

  /** Only a SETUP is decoded further. */
  function DispatchError(f: Frame): Option<Error>
  {
    if f.msgType == SETUP then
      match KeyValue.Decode(f.payload)
      case Ok(_) => None
      case Err(e) => Some(e)
    else None
  }

  function ControlLoop(s: seq<byte>): Outcome
    decreases |s|
  {
    match Frames.Read(s)
    case Fail(e) => Outcome([], Quiet(e))
    case Got(f, rest) =>
      if DispatchError(f).Some? then Outcome([], DispatchError(f))
      else After([Dispatched(f)], ControlLoop(rest))
  }

  /** The stream type has been consumed; it is the type of the first message. */
  function HandleControl(firstType: uint64, s: seq<byte>): Outcome
  {
    match Frames.ReadBody(s)
    case Fail(e) => Outcome([], Some(e))
    case Got(body, rest) =>
      var f := Frame(firstType, body);
      if DispatchError(f).Some? then Outcome([], DispatchError(f))
      else After([Dispatched(f)], ControlLoop(rest))
  }

  function ObjectEvents(os: seq<SubgroupObject>): (es: seq<Event>)
    ensures |es| == |os| && forall k :: 0 <= k < |es| ==> es[k] == ObjectRead(os[k])
  {
    if os == [] then [] else [ObjectRead(os[0])] + ObjectEvents(os[1..])
  }

  function ObjectLoop(hasExtensions: bool, prev: Option<uint64>, s: seq<byte>): Outcome
  {
    var (os, e) := ReadObjects(hasExtensions, prev, s);
    Outcome(ObjectEvents(os), Quiet(e))
  }

  function HandleSubgroup(t: uint64, s: seq<byte>): Outcome
  {
    match ReadHeader(t, s)
    case Fail(e) => Outcome([], Some(e))
    case Got(h, rest) => After([HeaderRead(h)], ObjectLoop(h.hasExtensions, None, rest))
  }

  /** Fetch and unknown streams are ignored. */
  function HandleUni(s: seq<byte>): Outcome
  {
    match Varint.Read(s)
    case Fail(e) => Outcome([], Some(e))
    case Got(t, rest) =>
      if t == SETUP then HandleControl(t, rest)
      else if IsSubgroupStreamType(t) then HandleSubgroup(t, rest)
      else Outcome([], None)
  }

  // ---------- the handlers as a machine ----------

  /** Where the object loop stands. */
  datatype Place = Place(hasExtensions: bool, prev: Option<uint64>)

  /** The varints of a stream. */
  datatype VarField =
    | StreamType
    | FrameType
    | Alias(h: Header)
    | Group(h: Header)
    | SubgroupID(h: Header)
    | ObjectDelta(at: Place)
    | ExtensionsLength(at: Place, delta: uint64)
    | PayloadLength(at: Place, delta: uint64, properties: seq<byte>)
    | StatusCode(at: Place, delta: uint64, properties: seq<byte>)

  /** The fixed-size fields of a stream. */
  datatype BytesField =
    | FrameLength(t: uint64)
    | FrameBody(t: uint64)
    | Priority(h: Header)
    | Extensions(at: Place, delta: uint64)
    | PayloadBytes(at: Place, delta: uint64, properties: seq<byte>)

  /** The next call of io.ReadFull, or the end. */
  datatype State =
    | First(f: VarField)
    | Rest(f: VarField, first: byte)
    | Fixed(b: BytesField, n: nat)
    | Stop(err: Option<Error>)

  predicate Valid(st: State)
  {
    match st
    case First(_) => true
    case Rest(_, first) => Varint.Length(first) > 1
    case Fixed(b, n) =>
      (match b
       case FrameLength(_) => n == 2
       case FrameBody(_) => true
       case Priority(_) => n == 1
       case Extensions(_, _) => 0 < n
       case PayloadBytes(_, _, _) => 0 < n < TWO_64)
    case Stop(_) => true
  }

  /** How many bytes the next read asks for. */
  function Want(st: State): nat
    requires !st.Stop?
  {
    match st
    case First(_) => 1
    case Rest(_, first) => Varint.Length(first) - 1
    case Fixed(_, n) => n
  }

  datatype Move = Move(next: State, events: seq<Event>)

  function FinishObject(at: Place, delta: uint64, properties: seq<byte>, body: ObjectBody): Move
    requires body.Payload? ==> |body.bytes| < TWO_64
  {
    var o := Assemble(at.prev, delta, properties, body);
    Move(First(ObjectDelta(at.(prev := Some(o.objectID)))), [ObjectRead(o)])
  }

  /** A varint field has been read. */
  function Accept(f: VarField, v: uint64): (m: Move)
    ensures Valid(m.next) && (m.next.Fixed? ==> m.next.n > 0)
  {
    match f
    case StreamType =>
      if v == SETUP then Move(Fixed(FrameLength(v), 2), [])
      else if IsSubgroupStreamType(v) then Move(First(Alias(Blank(v))), [])
      else Move(Stop(None), [])
    case FrameType => Move(Fixed(FrameLength(v), 2), [])
    case Alias(h) => Move(First(Group(h.(trackAlias := v))), [])
    case Group(h) =>
      var h' := h.(groupID := v);
      Move(if HasSubgroupID(h.typ) then First(SubgroupID(h')) else Fixed(Priority(h'), 1), [])
    case SubgroupID(h) => Move(Fixed(Priority(h.(subgroupID := v)), 1), [])
    case ObjectDelta(at) =>
      Move(First(if at.hasExtensions then ExtensionsLength(at, v) else PayloadLength(at, v, [])), [])
    case ExtensionsLength(at, delta) =>
      Move(if v > 0 then Fixed(Extensions(at, delta), v) else First(PayloadLength(at, delta, [])), [])
    case PayloadLength(at, delta, properties) =>
      var next := if v > 0 then Fixed(PayloadBytes(at, delta, properties), v)
                  else First(StatusCode(at, delta, properties));
      Move(next, [])
    case StatusCode(at, delta, properties) => FinishObject(at, delta, properties, Status(v))
  }

  /** A fixed-size field has been read. */
  function AcceptBytes(b: BytesField, bytes: seq<byte>): (m: Move)
    requires Valid(Fixed(b, |bytes|))
    ensures Valid(m.next) && (bytes == [] && m.next.Fixed? ==> m.next.n > 0)
  {
    match b
    case FrameLength(t) => Move(Fixed(FrameBody(t), FromBytes(bytes)), [])
    case FrameBody(t) =>
      var f := Frame(t, bytes);
      if DispatchError(f).Some? then Move(Stop(DispatchError(f)), [])
      else Move(First(FrameType), [Dispatched(f)])
    case Priority(h) =>
      var h' := h.(publisherPriority := bytes[0]);
      Move(First(ObjectDelta(Place(h'.hasExtensions, None))), [HeaderRead(h')])
    case Extensions(at, delta) => Move(First(PayloadLength(at, delta, bytes)), [])
    case PayloadBytes(at, delta, properties) => FinishObject(at, delta, properties, Payload(bytes))
  }

  /** The machine's answer to the bytes it asked for. */
  function Feed(st: State, bytes: seq<byte>): (m: Move)
    requires Valid(st) && !st.Stop? && |bytes| == Want(st)
    ensures Valid(m.next)
    ensures bytes == [] && !m.next.Stop? ==> Want(m.next) > 0
  {
    match st
    case First(f) => if Varint.Length(bytes[0]) == 1 then Accept(f, bytes[0]) else Move(Rest(f, bytes[0]), [])
    case Rest(f, first) =>
      assert ([first] + bytes)[0] == first;
      Accept(f, Varint.Value([first] + bytes))
    case Fixed(b, _) => AcceptBytes(b, bytes)
  }

  /** Run on all the bytes there will ever be. The error is what gets posted. */
  function Run(st: State, s: seq<byte>): Outcome
    requires Valid(st)
    decreases |s|, if !st.Stop? && Want(st) == 0 then 1 else 0
  {
    if st.Stop? then Outcome([], Posted(st.err))
    else
      match Take(s, Want(st))
      case Fail(e) => Outcome([], Quiet(e))
      case Got(bytes, rest) =>
        var m := Feed(st, bytes);
        After(m.events, Run(m.next, rest))
  }

  // ---------- the two forms agree ----------

  /** The machine once the read of field f has ended. */
  function Resume(f: VarField, p: Parse<uint64>): Outcome
  {
    match p
    case Fail(e) => Outcome([], Quiet(e))
    case Got(v, rest) => After(Accept(f, v).events, Run(Accept(f, v).next, rest))
  }

  /** Two reads of the machine are one varint. */
  lemma RunVarint(f: VarField, s: seq<byte>)
    ensures Run(First(f), s) == Resume(f, Varint.Read(s))
  {
    hide Accept, Varint.Value;
    if s != [] && Varint.Length(s[0]) > 1 {
      assert s[..1] == [s[0]];
      assert Feed(First(f), [s[0]]) == Move(Rest(f, s[0]), []);
      AfterNothing(Run(Rest(f, s[0]), s[1..]));
    } else if s != [] {
      assert s[..1] == [s[0]];
    }
  }

  lemma AfterNothing(o: Outcome)
    ensures After([], o) == o
  {
    assert [] + o.events == o.events;
  }

  lemma AfterTwice(a: seq<Event>, b: seq<Event>, o: Outcome)
    ensures After(a, After(b, o)) == After(a + b, o)
  {
    assert a + (b + o.events) == a + b + o.events;
  }

  function ResumeBody(at: Place, delta: uint64, properties: seq<byte>, p: Parse<ObjectBody>): Outcome
    requires p.Got? && p.value.Payload? ==> |p.value.bytes| < TWO_64
  {
    match p
    case Fail(e) => Outcome([], Quiet(e))
    case Got(body, rest) =>
      After(FinishObject(at, delta, properties, body).events, Run(FinishObject(at, delta, properties, body).next, rest))
  }

  lemma RunBody(at: Place, delta: uint64, properties: seq<byte>, s: seq<byte>)
    ensures Run(First(PayloadLength(at, delta, properties)), s) == ResumeBody(at, delta, properties, ReadObjectBody(s))
  {
    hide Varint.Read, FinishObject, Run, Feed;
    var f := PayloadLength(at, delta, properties);
    RunVarint(f, s);
    if Varint.Read(s).Got? {
      var len, rest := Varint.Read(s).value, Varint.Read(s).rest;
      AfterNothing(Run(Accept(f, len).next, rest));
      if len == 0 {
        RunVarint(StatusCode(at, delta, properties), rest);
      } else {
        RunFixed(PayloadBytes(at, delta, properties), len, rest);
      }
    }
  }

  lemma RunFixed(b: BytesField, n: nat, s: seq<byte>)
    requires Valid(Fixed(b, n))
    ensures Take(s, n).Fail? ==> Run(Fixed(b, n), s) == Outcome([], Quiet(Take(s, n).error))
    ensures n <= |s| ==> Run(Fixed(b, n), s) ==
                         After(AcceptBytes(b, s[..n]).events, Run(AcceptBytes(b, s[..n]).next, s[n..]))
  {
    hide AcceptBytes;
  }

  function ResumeExtensions(at: Place, delta: uint64, p: Parse<seq<byte>>): Outcome
  {
    match p
    case Fail(e) => Outcome([], Quiet(e))
    case Got(properties, rest) => Run(First(PayloadLength(at, delta, properties)), rest)
  }

  lemma RunExtensions(at: Place, delta: uint64, s: seq<byte>)
    ensures Run(Accept(ObjectDelta(at), delta).next, s)
            == ResumeExtensions(at, delta, ReadExtensions(at.hasExtensions, s))
  {
    hide Varint.Read, Run, Feed;
    if at.hasExtensions {
      var f := ExtensionsLength(at, delta);
      RunVarint(f, s);
      if Varint.Read(s).Got? {
        var len, rest := Varint.Read(s).value, Varint.Read(s).rest;
        AfterNothing(Run(Accept(f, len).next, rest));
        if len > 0 {
          RunFixed(Extensions(at, delta), len, rest);
          if len <= |rest| { AfterNothing(Run(First(PayloadLength(at, delta, rest[..len])), rest[len..])); }
        }
      }
    }
  }

  function ResumeObject(at: Place, p: Parse<SubgroupObject>): Outcome
  {
    match p
    case Fail(e) => Outcome([], Quiet(e))
    case Got(o, rest) => After([ObjectRead(o)], Run(First(ObjectDelta(at.(prev := Some(o.objectID)))), rest))
  }

  lemma RunObject(at: Place, s: seq<byte>)
    ensures Run(First(ObjectDelta(at)), s) == ResumeObject(at, ReadObject(at.hasExtensions, at.prev, s))
  {
    hide Varint.Read, Run, Feed, ReadExtensions, ReadObjectBody, Assemble;
    var f := ObjectDelta(at);
    RunVarint(f, s);
    if Varint.Read(s).Got? {
      var delta, s1 := Varint.Read(s).value, Varint.Read(s).rest;
      AfterNothing(Run(Accept(f, delta).next, s1));
      RunExtensions(at, delta, s1);
      if ReadExtensions(at.hasExtensions, s1).Got? {
        RunBody(at, delta, ReadExtensions(at.hasExtensions, s1).value, ReadExtensions(at.hasExtensions, s1).rest);
      }
    }
  }

  lemma {:induction false} RunObjects(at: Place, s: seq<byte>)
    ensures Run(First(ObjectDelta(at)), s) == ObjectLoop(at.hasExtensions, at.prev, s)
    decreases |s|
  {
    hide Run, Feed, ReadObject;
    RunObject(at, s);
    var p := ReadObject(at.hasExtensions, at.prev, s);
    if p.Got? {
      RunObjects(at.(prev := Some(p.value.objectID)), p.rest);
      var os := ReadObjects(at.hasExtensions, Some(p.value.objectID), p.rest).0;
      assert ([p.value] + os)[1..] == os;
    }
  }

  function AsPosted(o: Outcome): Outcome
  {
    o.(err := Posted(o.err))
  }

  lemma RunPriority(h: Header, s: seq<byte>)
    ensures Run(Fixed(Priority(h), 1), s) ==
            if s == [] then Outcome([], None)
            else After([HeaderRead(h.(publisherPriority := s[0]))], ObjectLoop(h.hasExtensions, None, s[1..]))
  {
    hide Run, Feed, ObjectLoop;
    RunFixed(Priority(h), 1, s);
    if s != [] {
      assert s[..1][0] == s[0];
      RunObjects(Place(h.hasExtensions, None), s[1..]);
    }
  }

  lemma RunHeader(t: uint64, s: seq<byte>)
    requires IsSubgroupStreamType(t)
    ensures Run(First(Alias(Blank(t))), s) == AsPosted(HandleSubgroup(t, s))
  {
    hide Varint.Read, Run, Feed, ObjectLoop;
    RunVarint(Alias(Blank(t)), s);
    if Varint.Read(s).Got? {
      var alias, s1 := Varint.Read(s).value, Varint.Read(s).rest;
      var h := Blank(t).(trackAlias := alias);
      AfterNothing(Run(First(Group(h)), s1));
      RunVarint(Group(h), s1);
      if Varint.Read(s1).Got? {
        var group, s2 := Varint.Read(s1).value, Varint.Read(s1).rest;
        h := h.(groupID := group);
        RunSubgroupID(h, s2);
        LoopIsPosted(h.hasExtensions, s2);
        if ReadSubgroupID(t, s2).Got? {
          var s3 := ReadSubgroupID(t, s2).rest;
          RunPriority(h.(subgroupID := ReadSubgroupID(t, s2).value), s3);
          if s3 != [] { LoopIsPosted(h.hasExtensions, s3[1..]); }
        }
      }
    }
  }

  lemma LoopIsPosted(hasExtensions: bool, s: seq<byte>)
    ensures AsPosted(ObjectLoop(hasExtensions, None, s)) == ObjectLoop(hasExtensions, None, s)
  {}

  lemma RunSubgroupID(h: Header, s: seq<byte>)
    requires h.subgroupID == 0
    ensures var m := Accept(Group(h.(groupID := 0)), h.groupID);
            After(m.events, Run(m.next, s)) ==
            match ReadSubgroupID(h.typ, s)
            case Fail(e) => Outcome([], Quiet(e))
            case Got(id, rest) => Run(Fixed(Priority(h.(subgroupID := id)), 1), rest)
  {
    hide Varint.Read, Run, Feed;
    var m := Accept(Group(h.(groupID := 0)), h.groupID);
    AfterNothing(Run(m.next, s));
    if HasSubgroupID(h.typ) {
      RunVarint(SubgroupID(h), s);
      if Varint.Read(s).Got? {
        AfterNothing(Run(Fixed(Priority(h.(subgroupID := Varint.Read(s).value)), 1), Varint.Read(s).rest));
      }
    }
  }

  function ResumeFrame(t: uint64, p: Parse<seq<byte>>): Outcome
  {
    match p
    case Fail(e) => Outcome([], Quiet(e))
    case Got(body, rest) =>
      var f := Frame(t, body);
      if DispatchError(f).Some? then Outcome([], Posted(DispatchError(f)))
      else After([Dispatched(f)], Run(First(FrameType), rest))
  }

  lemma RunFrame(t: uint64, s: seq<byte>)
    ensures Run(Fixed(FrameLength(t), 2), s) == ResumeFrame(t, Frames.ReadBody(s))
  {
    hide Feed, FromBytes, DispatchError;
    RunFixed(FrameLength(t), 2, s);
    if 2 <= |s| {
      var n := FromBytes(s[..2]);
      AfterNothing(Run(Fixed(FrameBody(t), n), s[2..]));
      RunFixed(FrameBody(t), n, s[2..]);
      if n <= |s[2..]| {
        var f := Frame(t, s[2..][..n]);
        if DispatchError(f).Some? { AfterNothing(Run(Stop(DispatchError(f)), s[2..][n..])); }
      }
    }
  }

  lemma {:induction false} RunControl(s: seq<byte>)
    ensures Run(First(FrameType), s) == AsPosted(ControlLoop(s))
    decreases |s|
  {
    hide Varint.Read, Run, Feed, Frames.ReadBody, DispatchError;
    RunVarint(FrameType, s);
    if Varint.Read(s).Got? {
      var t, rest := Varint.Read(s).value, Varint.Read(s).rest;
      AfterNothing(Run(Fixed(FrameLength(t), 2), rest));
      RunFrame(t, rest);
      if Frames.ReadBody(rest).Got? {
        RunControl(Frames.ReadBody(rest).rest);
      }
    }
  }

  /** The machine does what the handlers do, on every byte string. */
  lemma MachineAgrees(s: seq<byte>)
    ensures Run(First(StreamType), s) == AsPosted(HandleUni(s))
  {
    hide Varint.Read, Run, Feed, Frames.ReadBody, DispatchError, HandleSubgroup, ControlLoop;
    RunVarint(StreamType, s);
    if Varint.Read(s).Got? {
      var t, rest := Varint.Read(s).value, Varint.Read(s).rest;
      AfterNothing(Run(Accept(StreamType, t).next, rest));
      if t == SETUP {
        RunFrame(t, rest);
        if Frames.ReadBody(rest).Got? { RunControl(Frames.ReadBody(rest).rest); }
      } else if IsSubgroupStreamType(t) {
        RunHeader(t, rest);
      } else {
        RunStopped(rest);
      }
    }
  }

  lemma RunStopped(s: seq<byte>)
    ensures Run(Stop(None), s) == Outcome([], None)
  {}
}
