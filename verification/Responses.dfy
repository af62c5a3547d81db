// What arrives on a request stream, and what a whole stream of it does.
module Responses {
  import opened Bytes
  import opened Frames
  import opened Input
  import opened Registry
  import opened Session
  import Handoff
  import Varint

  const MSG_SUBSCRIBE_OK: uint64 := 0x04
  const MSG_REQUEST_ERROR: uint64 := 0x05
  const MAX_REASON: nat := 1024

  datatype SubscribeOKMessage = SubscribeOKMessage(trackAlias: uint64, numParams: uint64, trackProperties: seq<byte>)

  datatype RequestErrorMessage = RequestErrorMessage(
    code: uint64, retryInterval: uint64, reason: seq<byte>, redirect: seq<byte>)

  // ---------- decoding ----------

  /** Alias, number of parameters, and everything else uninterpreted. */
  function ParseSubscribeOK(payload: seq<byte>): Result<SubscribeOKMessage>
  {
    match Varint.Read(payload)
    case Fail(e) => Err(e)
    case Got(alias, s1) =>
      match Varint.Read(s1)
      case Fail(e) => Err(e)
      case Got(numParams, rest) => Ok(SubscribeOKMessage(alias, numParams, rest))
  }

  /** Error code, retry interval, reason phrase, and the redirect bytes. */
  function ParseRequestError(payload: seq<byte>): Result<RequestErrorMessage>
  {
    match Varint.Read(payload)
    case Fail(e) => Err(e)
    case Got(code, s1) =>
      match Varint.Read(s1)
      case Fail(e) => Err(e)
      case Got(retry, s2) =>
        match ParseReason(s2)
        case Fail(e) => Err(e)
        case Got(reason, redirect) => Ok(RequestErrorMessage(code, retry, reason, redirect))
  }

  /** At most 1024 bytes with their length. */
  function ParseReason(s: seq<byte>): Parse<seq<byte>>
  {
    match Varint.Read(s)
    case Fail(e) => Fail(e)
    case Got(len, rest) => if len > MAX_REASON then Fail(ReasonTooLong) else Take(rest, len)
  }

  method DecodeSubscribeOK(payload: seq<byte>) returns (res: Result<SubscribeOKMessage>)
    ensures res == ParseSubscribeOK(payload)
  {
    hide Varint.Read;
    var r := new Reader(payload);
    var alias := Varint.ReadVarint(r);
    if alias.Err? {
      return Err(alias.error);
    }
    var numParams := Varint.ReadVarint(r);
    if numParams.Err? {
      return Err(numParams.error);
    }
    var rest := r.ReadAll();
    return Ok(SubscribeOKMessage(alias.value, numParams.value, rest));
  }

  method DecodeRequestError(payload: seq<byte>) returns (res: Result<RequestErrorMessage>)
    ensures res == ParseRequestError(payload)
  {
    hide Varint.Read, ParseReason;
    var r := new Reader(payload);
    var code := Varint.ReadVarint(r);
    if code.Err? {
      return Err(code.error);
    }
    var retry := Varint.ReadVarint(r);
    if retry.Err? {
      return Err(retry.error);
    }
    var reason := ReadReason(r);
    if reason.Err? {
      return Err(reason.error);
    }
    var rest := r.ReadAll();
    return Ok(RequestErrorMessage(code.value, retry.value, reason.value, rest));
  }

  method ReadReason(r: Reader) returns (res: Result<seq<byte>>)
    requires r.Valid()
    modifies r`pos
    ensures r.Valid()
    ensures match ParseReason(old(r.Rest()))
            case Got(reason, rest) => res == Ok(reason) && r.Rest() == rest
            case Fail(e) => res == Err(e)
  {
    hide Varint.Read;
    var reasonLen := Varint.ReadVarint(r);
    if reasonLen.Err? {
      return Err(reasonLen.error);
    }
    if reasonLen.value > MAX_REASON {
      return Err(ReasonTooLong);
    }
    res := r.ReadFull(reasonLen.value);
  }

  // ---------- what is decoded: exactly this, with its varints in any encoding ----------

  lemma SubscribeOKRoundTrip(e1: seq<byte>, e2: seq<byte>, properties: seq<byte>)
    requires Varint.IsEncoding(e1) && Varint.IsEncoding(e2)
    ensures ParseSubscribeOK(e1 + (e2 + properties))
            == Ok(SubscribeOKMessage(Varint.Value(e1), Varint.Value(e2), properties))
  {
    hide Varint.Read, Varint.IsEncoding, Varint.Value;
    Varint.ReadSplits(e1, e2 + properties);
    Varint.ReadSplits(e2, properties);
  }

  lemma SubscribeOKShape(payload: seq<byte>) returns (e1: seq<byte>, e2: seq<byte>)
    requires ParseSubscribeOK(payload).Ok?
    ensures var m := ParseSubscribeOK(payload).value;
            && payload == e1 + (e2 + m.trackProperties)
            && Varint.IsEncoding(e1) && Varint.Value(e1) == m.trackAlias
            && Varint.IsEncoding(e2) && Varint.Value(e2) == m.numParams
  {
    hide Varint.Read, Varint.IsEncoding, Varint.Value;
    e1 := Varint.ReadConsumes(payload);
    e2 := Varint.ReadConsumes(Varint.Read(payload).rest);
  }

  /** A reason of at most 1024 bytes is decoded with everything around it; a
      longer one is refused. */
  lemma RequestErrorRoundTrip(e1: seq<byte>, e2: seq<byte>, e3: seq<byte>, reason: seq<byte>, redirect: seq<byte>)
    requires Varint.IsEncoding(e1) && Varint.IsEncoding(e2) && Varint.IsEncoding(e3) && Varint.Value(e3) == |reason|
    ensures ParseRequestError(e1 + (e2 + (e3 + (reason + redirect))))
            == if |reason| <= 1024 then Ok(RequestErrorMessage(Varint.Value(e1), Varint.Value(e2), reason, redirect))
               else Err(ReasonTooLong)
  {
    hide Varint.Read, Varint.IsEncoding, Varint.Value;
    Varint.ReadSplits(e1, e2 + (e3 + (reason + redirect)));
    Varint.ReadSplits(e2, e3 + (reason + redirect));
    Varint.ReadSplits(e3, reason + redirect);
    TakeExact(reason, redirect);
  }

  lemma RequestErrorShape(payload: seq<byte>) returns (e1: seq<byte>, e2: seq<byte>, e3: seq<byte>)
    requires ParseRequestError(payload).Ok?
    ensures var m := ParseRequestError(payload).value;
            && payload == e1 + (e2 + (e3 + (m.reason + m.redirect))) && |m.reason| <= 1024
            && Varint.IsEncoding(e1) && Varint.Value(e1) == m.code
            && Varint.IsEncoding(e2) && Varint.Value(e2) == m.retryInterval
            && Varint.IsEncoding(e3) && Varint.Value(e3) == |m.reason|
  {
    hide Varint.Read, Varint.IsEncoding, Varint.Value;
    e1 := Varint.ReadConsumes(payload);
    var s1 := Varint.Read(payload).rest;
    e2 := Varint.ReadConsumes(s1);
    var s2 := Varint.Read(s1).rest;
    e3 := Varint.ReadConsumes(s2);
  }

  // ---------- a whole request stream ----------

  /** The messages that readRequestStream acts on, in order; it stops at a read
      error, after a REQUEST_ERROR, and at a response that does not decode. */
  function Received(s: seq<byte>): seq<Message>
    decreases |s|
  {
    match Frames.Read(s)
    case Fail(_) => []
    case Got(f, rest) =>
      if f.msgType == MSG_SUBSCRIBE_OK then
        match ParseSubscribeOK(f.payload)
        case Err(_) => []
        case Ok(m) => [SubscribeOK(m.trackAlias)] + Received(rest)
      else if f.msgType == MSG_REQUEST_ERROR then
        if ParseRequestError(f.payload).Ok? then [RequestError] else []
      else [Other] + Received(rest)
  }

  /** Every SUBSCRIBE_OK binds its alias. */
  function BindAll<S>(reg: Reg<S>, sub: S, ms: seq<Message>): Reg<S>
    decreases |ms|
  {
    if ms == [] then reg
    else BindAll(if ms[0].SubscribeOK? then Bind(reg, sub, ms[0].alias) else reg, sub, ms[1..])
  }

  /** The verdict channel after the responses have been offered to it in order. */
  function Signalled(ch: Option<Verdict>, ms: seq<Message>): Option<Verdict>
  {
    if ch != None then ch else Handoff.FirstVerdict(ms)
  }

  /** On bytes: a SUBSCRIBE_OK is acted on, whatever follows its two numbers. */
  lemma AcceptanceIsReceived(e1: seq<byte>, e2: seq<byte>, properties: seq<byte>, rest: seq<byte>)
    requires Varint.IsEncoding(e1) && Varint.IsEncoding(e2) && |e1 + (e2 + properties)| <= 65535
    ensures Received(Frames.Encode(Frame(0x04, e1 + (e2 + properties))) + rest)
            == [SubscribeOK(Varint.Value(e1))] + Received(rest)
  {
    hide Frames.Read, Frames.Encode, ParseSubscribeOK, Varint.IsEncoding, Varint.Value;
    Frames.RoundTrip(Frame(0x04, e1 + (e2 + properties)), rest);
    SubscribeOKRoundTrip(e1, e2, properties);
  }

  /** A REQUEST_ERROR with a reason that is not too long rejects, and ends the
      stream; one with a longer reason only ends it. */
  lemma RejectionIsReceived(e1: seq<byte>, e2: seq<byte>, e3: seq<byte>, reason: seq<byte>, redirect: seq<byte>,
                            rest: seq<byte>)
    requires Varint.IsEncoding(e1) && Varint.IsEncoding(e2) && Varint.IsEncoding(e3) && Varint.Value(e3) == |reason|
    requires |e1 + (e2 + (e3 + (reason + redirect)))| <= 65535
    ensures var ms := Received(Frames.Encode(Frame(0x05, e1 + (e2 + (e3 + (reason + redirect))))) + rest);
            && ms == (if |reason| <= 1024 then [RequestError] else [])
            && Signalled(None, ms) == if |reason| <= 1024 then Some(Rejected) else None
  {
    hide Frames.Read, Frames.Encode, ParseRequestError, Varint.IsEncoding, Varint.Value;
    Frames.RoundTrip(Frame(0x05, e1 + (e2 + (e3 + (reason + redirect)))), rest);
    RequestErrorRoundTrip(e1, e2, e3, reason, redirect);
  }

  /** Other messages are skipped; a response that does not decode ends the stream. */
  lemma OthersAreReceived(f: Frame, rest: seq<byte>)
    requires |f.payload| <= 65535
    ensures f.msgType != 0x04 && f.msgType != 0x05 ==> Received(Frames.Encode(f) + rest) == [Other] + Received(rest)
    ensures f.msgType == 0x04 && ParseSubscribeOK(f.payload).Err? ==> Received(Frames.Encode(f) + rest) == []
    ensures f.msgType == 0x05 && ParseRequestError(f.payload).Err? ==> Received(Frames.Encode(f) + rest) == []
  {
    hide Frames.Read, Frames.Encode, ParseSubscribeOK, ParseRequestError;
    Frames.RoundTrip(f, rest);
  }

  // ---------- the step system run by one request reader alone ----------

  /** Reading and handling one message: at most two steps after the read. */
  function Hear(s: State, r: Role, m: Message): State
  {
    Next(Next(Next(s, ReqRecv(r, m)), ReqStep(r)), ReqStep(r))
  }

  function HearAll(s: State, r: Role, ms: seq<Message>): State
    decreases |ms|
  {
    if ms == [] then s else HearAll(Hear(s, r, ms[0]), r, ms[1..])
  }

  /** Everything but this subscription, the registry and the bindings is left alone. */
  predicate OnlyReader(s: State, s': State, r: Role)
  {
    s' == s.(subs := s.subs.Set(r, s'.subs.Get(r)), reg := s'.reg, bound := s'.bound)
  }

  /** What one message does to a subscription whose reader is at its next read. */
  function Heard(sub: Sub, m: Message): Sub
  {
    sub.(messages := sub.messages + [m],
         okCh := Signalled(sub.okCh, [m]),
         reader := if m == RequestError then Closed else Reading)
  }

  lemma HearOne(s: State, r: Role, m: Message)
    requires s.subs.Get(r).reader == Reading
    ensures var s' := Hear(s, r, m);
            && OnlyReader(s, s', r) && s'.subs.Get(r) == Heard(s.subs.Get(r), m)
            && s'.reg == (if m.SubscribeOK? then Bind(s.reg, r, m.alias) else s.reg)
  {
    hide Hear, OnlyReader, Heard, Bind;
    match m
    case SubscribeOK(a) => HearOK(s, r, a);
    case RequestError => HearError(s, r);
    case Other => HearOther(s, r);
  }

  lemma HearOK(s: State, r: Role, a: uint64)
    requires s.subs.Get(r).reader == Reading
    ensures var s' := Hear(s, r, SubscribeOK(a));
            && OnlyReader(s, s', r) && s'.subs.Get(r) == Heard(s.subs.Get(r), SubscribeOK(a))
            && s'.reg == Bind(s.reg, r, a)
  {
    hide Bind, Signalled;
    var sub, m := s.subs.Get(r), SubscribeOK(a);
    var s1 := Next(s, ReqRecv(r, m));
    assert s1.subs.Get(r) == sub.(messages := sub.messages + [m], reader := Binding(a));
    var s2 := Next(s1, ReqStep(r));
    assert s2.subs.Get(r) == sub.(messages := sub.messages + [m], reader := Signalling(a));
    OfferIsSignalled(sub.okCh, m);
  }

  lemma OfferIsSignalled(ch: Option<Verdict>, m: Message)
    ensures Signalled(ch, [m]) ==
            match m
            case SubscribeOK(a) => Offer(ch, Accepted(a))
            case RequestError => Offer(ch, Rejected)
            case Other => ch
  {
    FirstOfOne(m);
  }

  lemma HearError(s: State, r: Role)
    requires s.subs.Get(r).reader == Reading
    ensures var s' := Hear(s, r, RequestError);
            OnlyReader(s, s', r) && s'.subs.Get(r) == Heard(s.subs.Get(r), RequestError) && s'.reg == s.reg
  {
    hide Signalled;
    var sub := s.subs.Get(r);
    var s1 := Next(s, ReqRecv(r, RequestError));
    assert s1.subs.Get(r) == sub.(messages := sub.messages + [RequestError], reader := Refusing);
    OfferIsSignalled(sub.okCh, RequestError);
  }

  lemma HearOther(s: State, r: Role)
    requires s.subs.Get(r).reader == Reading
    ensures var s' := Hear(s, r, Other);
            OnlyReader(s, s', r) && s'.subs.Get(r) == Heard(s.subs.Get(r), Other) && s'.reg == s.reg
  {
    hide Signalled;
    var sub := s.subs.Get(r);
    var s1 := Next(s, ReqRecv(r, Other));
    assert s1.subs.Get(r) == sub.(messages := sub.messages + [Other]);
    OfferIsSignalled(sub.okCh, Other);
  }

  /** A REQUEST_ERROR ends the stream for the reader. */
  predicate ErrorIsLast(ms: seq<Message>)
  {
    forall k :: 0 <= k < |ms| - 1 ==> ms[k] != RequestError
  }

  lemma {:induction false} ReceivedEnds(s: seq<byte>)
    ensures ErrorIsLast(Received(s))
    decreases |s|
  {
    hide Frames.Read, ParseSubscribeOK, ParseRequestError;
    var p := Frames.Read(s);
    if p.Got? {
      ReceivedEnds(p.rest);
    }
  }

  /** A request reader left alone with a whole stream leaves in the channel, in
      the registry and in its history what ReadRequestStream is specified to. */
  lemma {:induction false} SoloReader(s: State, r: Role, ms: seq<Message>)
    requires s.subs.Get(r).reader == Reading && ErrorIsLast(ms)
    ensures var sub, s' := s.subs.Get(r), HearAll(s, r, ms);
            && OnlyReader(s, s', r)
            && s'.reg == BindAll(s.reg, r, ms)
            && s'.subs.Get(r) == sub.(
                 messages := sub.messages + ms,
                 okCh := Signalled(sub.okCh, ms),
                 reader := if ms != [] && ms[|ms| - 1] == RequestError then Closed else Reading)
    decreases |ms|
  {
    hide Hear, Bind, Handoff.FirstVerdict, Signalled;
    var sub := s.subs.Get(r);
    if ms == [] {
      NothingHeard(sub.okCh);
      assert sub.messages + [] == sub.messages;
      SetSame(s, r);
    } else {
      var m, rest := ms[0], ms[1..];
      HearOne(s, r, m);
      assert [m] + rest == ms && sub.messages + [m] + rest == sub.messages + ms;
      SignalledMore(sub.okCh, m, rest);
      if rest == [] {
        assert ms == [m];
        assert HearAll(s, r, ms) == Hear(s, r, m);
        assert BindAll(s.reg, r, ms) == Hear(s, r, m).reg;
      } else {
        assert forall k :: 0 <= k < |rest| - 1 ==> rest[k] == ms[k + 1];
        assert m != RequestError && ms[|ms| - 1] == rest[|rest| - 1];
        SoloReader(Hear(s, r, m), r, rest);
      }
    }
  }

  /** When the stream ends the reader is done, and nothing else happens. */
  lemma StreamEnds(s: State, r: Role, ms: seq<Message>)
    requires s.subs.Get(r).reader == Reading && ErrorIsLast(ms)
    ensures var s' := HearAll(s, r, ms); var over := Next(s', ReqClose(r));
            over.subs.Get(r) == s'.subs.Get(r).(reader := Closed) && OnlyReader(s', over, r) && over.reg == s'.reg
  {
    hide HearAll, BindAll, Signalled;
    SoloReader(s, r, ms);
    SetSame(HearAll(s, r, ms), r);
  }

  lemma NothingHeard(ch: Option<Verdict>)
    ensures Signalled(ch, []) == ch
  {}

  lemma SetSame(s: State, r: Role)
    ensures s.subs.Set(r, s.subs.Get(r)) == s.subs
  {}

  lemma SignalledMore(ch: Option<Verdict>, m: Message, rest: seq<Message>)
    ensures Signalled(Signalled(ch, [m]), rest) == Signalled(ch, [m] + rest)
  {
    FirstOfOne(m);
    assert ([m] + rest)[0] == m && ([m] + rest)[1..] == rest;
    match m
    case SubscribeOK(_) =>
    case RequestError =>
    case Other =>
  }

  // ---------- more than one response ----------

  lemma {:induction false} BindAllAppend<S>(reg: Reg<S>, sub: S, ms: seq<Message>, m: Message)
    ensures var after := BindAll(reg, sub, ms);
            BindAll(reg, sub, ms + [m]) == if m.SubscribeOK? then Bind(after, sub, m.alias) else after
    decreases |ms|
  {
    hide Bind;
    if ms == [] {
      assert ms + [m] == [m] && [m][1..] == [];
    } else {
      assert (ms + [m])[1..] == ms[1..] + [m];
      BindAllAppend(if ms[0].SubscribeOK? then Bind(reg, sub, ms[0].alias) else reg, sub, ms[1..], m);
    }
  }

  /** When one more message changes anything: the channel exactly if the message
      is a response and no other one came before; the registry exactly if it is
      a SUBSCRIBE_OK whose alias is not bound to this subscription already. */
  lemma LaterResponse<S>(reg: Reg<S>, sub: S, ch: Option<Verdict>, ms: seq<Message>, m: Message)
    ensures Signalled(ch, ms + [m]) != Signalled(ch, ms) <==>
            m != Other && ch == None && forall k :: 0 <= k < |ms| ==> ms[k] == Other
    ensures var bound := BindAll(reg, sub, ms).byAlias;
            BindAll(reg, sub, ms + [m]) != BindAll(reg, sub, ms) <==>
            m.SubscribeOK? && !(m.alias in bound && bound[m.alias] == sub)
  {
    hide Handoff.FirstVerdict, BindAll;
    Handoff.FirstVerdictAppend(ms, m);
    FirstOfOne(m);
    NoResponse(ms);
    BindAllAppend(reg, sub, ms, m);
  }

  lemma FirstOfOne(m: Message)
    ensures Handoff.FirstVerdict([m]) ==
            match m
            case SubscribeOK(a) => Some(Accepted(a))
            case RequestError => Some(Rejected)
            case Other => None
  {
    assert [m][1..] == [];
  }

  lemma {:induction false} NoResponse(ms: seq<Message>)
    ensures Handoff.FirstVerdict(ms) == None <==> forall k :: 0 <= k < |ms| ==> ms[k] == Other
  {
    if ms != [] {
      NoResponse(ms[1..]);
      assert (forall k :: 0 <= k < |ms| ==> ms[k] == Other) ==> ms[0] == Other;
      assert forall k :: 1 <= k < |ms| ==> ms[k] == ms[1..][k - 1];
      assert forall k :: 0 <= k < |ms| - 1 ==> ms[1..][k] == ms[k + 1];
    }
  }

  function OKFrame(alias: uint64): Frame
  {
    Frame(MSG_SUBSCRIBE_OK, Varint.Encode(alias) + Varint.Encode(0))
  }

  /** A stream with two SUBSCRIBE_OKs: both aliases are bound, the first one is
      signalled. */
  lemma TwoResponses<S>(a: uint64, b: uint64, sub: S)
    ensures var ms := Received(Frames.Encode(OKFrame(a)) + Frames.Encode(OKFrame(b)));
            && ms == [SubscribeOK(a), SubscribeOK(b)]
            && BindAll(Empty(), sub, ms).byAlias == map[a := sub, b := sub]
            && Signalled(None, ms) == Some(Accepted(a))
  {
    hide Frames.Encode, Received, OKFrame;
    var e := Frames.Encode(OKFrame(b));
    OKRoundTrip(a, e);
    OKRoundTrip(b, []);
    assert e + [] == e;
    assert Received([]) == [] by { NothingReceived(); }
    var ms := [SubscribeOK(a), SubscribeOK(b)];
    assert Received(e) == [SubscribeOK(b)];
    assert Received(Frames.Encode(OKFrame(a)) + e) == ms;
    BindAllAppend(Empty(), sub, [SubscribeOK(a)], SubscribeOK(b));
    BindAllAppend(Empty(), sub, [], SubscribeOK(a));
    assert [] + [SubscribeOK(a)] == [SubscribeOK(a)] && [SubscribeOK(a)] + [SubscribeOK(b)] == ms;
  }

  lemma NothingReceived()
    ensures Received([]) == []
  {}

  lemma OKRoundTrip(alias: uint64, rest: seq<byte>)
    ensures Received(Frames.Encode(OKFrame(alias)) + rest) == [SubscribeOK(alias)] + Received(rest)
  {
    hide Varint.Encode, Varint.IsEncoding, Varint.Value, Frames.Encode, Received;
    var e1, e2 := Varint.Encode(alias), Varint.Encode(0);
    Varint.ValueOfEncode(alias);
    Varint.ValueOfEncode(0);
    assert e2 + [] == e2;
    AcceptanceIsReceived(e1, e2, [], rest);
  }
}
