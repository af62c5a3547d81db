// The stream handlers of the subscriber as code that changes the runner in
// place, each on a stream of its own and with nobody else moving.
module Runner {
  import opened Bytes
  import opened Input
  import opened Frames
  import opened Subgroup
  import opened Objects
  import opened Output
  import opened Registry
  import opened Responses
  import opened UniStream
  import Delivery
  import KeyValue
  import Session
  import Varint

  // ---------- what a stream carries ----------

  /** What a subgroup stream of type t carries, if its header can be read. */
  datatype Carried = Carried(alias: uint64, objects: seq<Session.Object>)

  function Contents(t: uint64, s: seq<byte>): Option<Carried>
  {
    match ReadHeader(t, s)
    case Fail(_) => None
    case Got(h, rest) => Some(Carried(h.trackAlias, AllSeen(ReadObjects(h.hasExtensions, None, rest).0)))
  }

  /** The same for a stream whose type is still to be read. */
  function UniContents(s: seq<byte>): Option<Carried>
  {
    match Varint.Read(s)
    case Fail(_) => None
    case Got(t, rest) => Contents(t, rest)
  }

  class Runner {
    const subs: SubscriptionRegistry
    const sink: Writer
    var bytesWritten: uint64
    var objectsSeen: uint64
    var groupsSeen: uint64
    var gapHints: uint64
    var statusObjects: uint64
    var peerSetupSeen: bool

    constructor (sink: Writer)
      ensures this.sink == sink && fresh(subs) && subs.Value() == Empty() && !peerSetupSeen
      ensures bytesWritten == objectsSeen == groupsSeen == gapHints == statusObjects == 0
    {
      subs := new SubscriptionRegistry();
      this.sink := sink;
      bytesWritten, objectsSeen, groupsSeen, gapHints, statusObjects := 0, 0, 0, 0, 0;
      peerSetupSeen := false;
    }

    /** The shared state as a stream mapped to sub sees it. */
    function Shared(sub: TrackSubscription?): Delivery.Shared
      reads this, sink, sub
    {
      Delivery.Shared(sink.out, sink.fate, bytesWritten, objectsSeen, gapHints, statusObjects,
                      if sub == null then None else sub.firstObjCh,
                      sub != null && sub.gotFirst)
    }

    static function RoleOf(sub: TrackSubscription?): Option<Role>
    {
      if sub == null then None else Some(sub.role)
    }

    // ---------- subscriptions ----------

    method NewTrackSubscription(trackName: string, role: Role) returns (sub: TrackSubscription)
      modifies subs
      ensures fresh(sub) && sub.role == role && sub.trackName == trackName && sub.requestID == old(subs.nextID)
      ensures sub.okCh == None && sub.firstObjCh == None && !sub.gotFirst
      ensures subs.Value() == Register(Alloc(old(subs.Value())), sub.requestID, sub)
    {
      var id := subs.AllocRequestID();
      sub := new TrackSubscription(id, trackName, role);
      subs.RegisterSub(sub);
    }

    /** Reading a whole request stream: the channel gets the first verdict and
        keeps it, and every accepted alias is bound. */
    method ReadRequestStream(sub: TrackSubscription, stream: Reader)
      requires stream.Valid()
      modifies subs, sub`okCh, stream`pos
      ensures sub.okCh == Signalled(old(sub.okCh), Received(old(stream.Rest())))
      ensures subs.Value() == BindAll(old(subs.Value()), sub, Received(old(stream.Rest())))
    {
      hide Varint.Read, Frames.Read, ParseSubscribeOK, ParseRequestError;
      ghost var all := Received(stream.Rest());
      while true
        invariant stream.Valid()
        invariant Signalled(old(sub.okCh), all) == Signalled(sub.okCh, Received(stream.Rest()))
        invariant BindAll(old(subs.Value()), sub, all) == BindAll(subs.Value(), sub, Received(stream.Rest()))
        decreases |stream.Rest()|
      {
        ghost var before := stream.Rest();
        var frame := Frames.ReadFrame(stream);
        if frame.Err? {
          return;
        }
        if frame.value.msgType == MSG_SUBSCRIBE_OK {
          var ok := DecodeSubscribeOK(frame.value.payload);
          if ok.Err? {
            return;
          }
          assert Received(before) == [Session.SubscribeOK(ok.value.trackAlias)] + Received(stream.Rest());
          subs.BindAlias(sub, ok.value.trackAlias);
          sub.okCh := Offer(sub.okCh, Accepted(ok.value.trackAlias));
        } else if frame.value.msgType == MSG_REQUEST_ERROR {
          var reqErr := DecodeRequestError(frame.value.payload);
          if reqErr.Err? {
            return;
          }
          assert Received(before) == [Session.RequestError];
          sub.okCh := Offer(sub.okCh, Rejected);
          return;
        } else {
          assert Received(before) == [Session.Other] + Received(stream.Rest());
        }
      }
    }

    // ---------- subgroup streams ----------

    /** What a method returns when nothing but a write can have failed. */
    static function WriteError(d: Delivery.Done): Option<Error>
    {
      if d.failed then Some(WriteFailed) else None
    }

    method DeliverSubgroupObject(sub: TrackSubscription, payload: seq<byte>) returns (err: Option<Error>)
      modifies sink, this`bytesWritten, sub`firstObjCh, sub`gotFirst
      ensures var d := Delivery.DeliverPayload(old(Shared(sub)), Some(sub.role), payload);
              Shared(sub) == d.w && err == WriteError(d)
    {
      match sub.role
      case Catalog =>
        if !sub.gotFirst {
          sub.gotFirst := true;
          sub.firstObjCh := Offer(sub.firstObjCh, payload);
        }
        return None;
      case Init =>
        if !sub.gotFirst {
          sub.gotFirst := true;
          sub.firstObjCh := Offer(sub.firstObjCh, payload);
        }
        return None;
      case Media =>
        err := WritePayload(payload);
        if err != None {
          return;
        }
        bytesWritten := Add64(bytesWritten, |payload| % TWO_64);
    }

    method WritePayload(payload: seq<byte>) returns (err: Option<Error>)
      modifies sink
      ensures sink.fate == Later(old(sink.fate))
      ensures Accepts(old(sink.fate)) ==> err == None && sink.out == old(sink.out) + payload
      ensures !Accepts(old(sink.fate)) ==> err == Some(WriteFailed) && sink.out == old(sink.out)
    {
      err := sink.Write(payload);
    }

    /** The object loop: objects are read until the stream ends, and each is
        counted and delivered as it is read, until a write fails. */
    method ObjectLoop(stream: Reader, header: Header, sub: TrackSubscription?) returns (err: Option<Error>)
      requires stream.Valid()
      modifies sink, this`bytesWritten, this`objectsSeen, this`gapHints, this`statusObjects
      modifies stream`pos, (if sub == null then {} else {sub})`firstObjCh, (if sub == null then {} else {sub})`gotFirst
      ensures var (os, e) := ReadObjects(header.hasExtensions, None, old(stream.Rest()));
              var d := Delivery.DeliverAll(old(Shared(sub)), RoleOf(sub), AllSeen(os));
              && Shared(sub) == d.w
              && err == if d.failed then Some(WriteFailed) else Quiet(e)
    {
      hide ReadObject, ReadObjects, Delivery.Deliver, Delivery.DeliverAll, AllSeen, Shared;
      var reader := new SubgroupObjectReader(stream, header);
      ghost var all := ReadObjects(header.hasExtensions, None, stream.Rest());
      ghost var w := Shared(sub);
      ghost var done: seq<SubgroupObject> := [];
      NothingDone(w, RoleOf(sub));
      assert [] + all.0 == all.0;
      while true
        invariant stream.Valid() && reader.r == stream && reader.hasExtensions == header.hasExtensions && fresh(reader)
        invariant LoopAt(all, done, header.hasExtensions, reader.prevObjectID, stream.Rest())
        invariant Delivery.DeliverAll(w, RoleOf(sub), AllSeen(done)) == Delivery.Done(Shared(sub), false)
        decreases |stream.Rest()|
      {
        LoopMoves(all, done, header.hasExtensions, reader.prevObjectID, stream.Rest());
        var res := reader.Next();
        if res.Err? {
          if res.error == EOF {
            return None;
          }
          return Some(res.error);
        }
        DoneMore(w, RoleOf(sub), done, res.value);
        done := done + [res.value];
        err := HandleObject(sub, res.value);
        if err != None {
          FailedThere(w, RoleOf(sub), all.0, done);
          return;
        }
      }
    }

    /** all is what has been done and what is still to be read. */
    static predicate LoopAt(all: (seq<SubgroupObject>, Error), done: seq<SubgroupObject>,
                            hasExtensions: bool, prev: Option<uint64>, s: seq<byte>)
    {
      var more := ReadObjects(hasExtensions, prev, s);
      all.0 == done + more.0 && all.1 == more.1
    }

    static lemma LoopMoves(all: (seq<SubgroupObject>, Error), done: seq<SubgroupObject>,
                           hasExtensions: bool, prev: Option<uint64>, s: seq<byte>)
      requires LoopAt(all, done, hasExtensions, prev, s)
      ensures var p := ReadObject(hasExtensions, prev, s);
              && (p.Fail? ==> all == (done, p.error))
              && (p.Got? ==> LoopAt(all, done + [p.value], hasExtensions, Some(p.value.objectID), p.rest))
    {
      hide ReadObject;
      var p := ReadObject(hasExtensions, prev, s);
      if p.Fail? {
        assert done + [] == done;
      } else {
        var more := ReadObjects(hasExtensions, Some(p.value.objectID), p.rest);
        assert done + ([p.value] + more.0) == done + [p.value] + more.0;
      }
    }

    static lemma NothingDone(w: Delivery.Shared, role: Option<Role>)
      ensures Delivery.DeliverAll(w, role, AllSeen([])) == Delivery.Done(w, false)
    {}

    static lemma DoneMore(w: Delivery.Shared, role: Option<Role>, done: seq<SubgroupObject>, o: SubgroupObject)
      requires !Delivery.DeliverAll(w, role, AllSeen(done)).failed
      ensures Delivery.DeliverAll(w, role, AllSeen(done + [o]))
              == Delivery.Deliver(Delivery.DeliverAll(w, role, AllSeen(done)).w, role, Seen(o))
    {
      hide Delivery.Deliver, Delivery.DeliverAll;
      AllSeenAppend(done, [o]);
      assert AllSeen([o]) == [Seen(o)];
      Delivery.DeliverMore(w, role, AllSeen(done), Seen(o));
    }

    static lemma FailedThere(w: Delivery.Shared, role: Option<Role>, all: seq<SubgroupObject>,
                             done: seq<SubgroupObject>)
      requires done <= all && Delivery.DeliverAll(w, role, AllSeen(done)).failed
      ensures Delivery.DeliverAll(w, role, AllSeen(all)) == Delivery.DeliverAll(w, role, AllSeen(done))
    {
      hide Delivery.DeliverAll, AllSeen;
      var rest := all[|done|..];
      assert all == done + rest;
      AllSeenAppend(done, rest);
      Delivery.FailureStays(w, role, AllSeen(done), AllSeen(rest));
    }

    /** One round of the loop after a successful Next. */
    method HandleObject(sub: TrackSubscription?, obj: SubgroupObject) returns (err: Option<Error>)
      modifies sink, this`bytesWritten, this`objectsSeen, this`gapHints, this`statusObjects
      modifies (if sub == null then {} else {sub})`firstObjCh, (if sub == null then {} else {sub})`gotFirst
      ensures var d := Delivery.Deliver(old(Shared(sub)), RoleOf(sub), Seen(obj));
              Shared(sub) == d.w && err == WriteError(d)
    {
      objectsSeen := Add64(objectsSeen, 1);
      if obj.objectIDDelta > 0 {
        gapHints := Add64(gapHints, 1);
      }
      if obj.isStatusObject {
        statusObjects := Add64(statusObjects, 1);
        return None;
      }
      if sub == null {
        return None;
      }
      err := DeliverSubgroupObject(sub, obj.payload);
    }

    /** The subscriptions that a lookup can find. */
    function Subscriptions(): set<TrackSubscription>
      reads subs
    {
      subs.byAlias.Values + subs.byRequest.Values
    }

    /** The subscription that a stream with this alias is mapped to. */
    function Target(alias: uint64): TrackSubscription?
      reads subs
    {
      if Lookup(subs.Value(), alias) == None then null else Lookup(subs.Value(), alias).value
    }

    /** Everything read from the stream is counted, and delivered to the
        subscription that the one lookup has found; no other subscription
        changes. */
    method HandleSubgroupStream(stream: Reader, t: uint64) returns (err: Option<Error>)
      requires stream.Valid() && IsSubgroupStreamType(t)
      modifies sink, this`bytesWritten, this`objectsSeen, this`groupsSeen, this`gapHints, this`statusObjects
      modifies stream`pos, Subscriptions()`firstObjCh, Subscriptions()`gotFirst
      ensures match Contents(t, old(stream.Rest()))
              case None =>
                && err == HandleSubgroup(t, old(stream.Rest())).err
                && Counters() == old(Counters()) && OthersKeep(old(Subscriptions()), null)
              case Some(c) =>
                var d := Delivered(old(SharedOf(c.alias)), c);
                && err == (if d.failed then Some(WriteFailed) else HandleSubgroup(t, old(stream.Rest())).err)
                && groupsSeen == Add64(old(groupsSeen), 1) && Shared(Target(c.alias)) == d.w
                && OthersKeep(old(Subscriptions()), Target(c.alias))
    {
      hide ReadHeader, Varint.Read, ReadObjects, Delivery.DeliverAll, Contents, HandleSubgroup, AllSeen, Quiet, Shared,
           Target;
      WhatIsCarried(t, stream.Rest());
      var header := ParseSubgroupHeader(stream, t);
      if header.Err? {
        return Some(header.error);
      }
      var sub := MapStream(header.value.trackAlias);
      err := ObjectLoop(stream, header.value, sub);
    }

    /** What delivering the contents of a stream amounts to. */
    function Delivered(w: Delivery.Shared, c: Carried): Delivery.Done
      reads subs
    {
      Delivery.DeliverAll(w, RoleOf(Target(c.alias)), c.objects)
    }

    /** The group is counted and the subscription looked up, once. */
    method MapStream(alias: uint64) returns (sub: TrackSubscription?)
      modifies this`groupsSeen
      ensures sub == Target(alias) && (sub != null ==> sub in Subscriptions())
      ensures groupsSeen == Add64(old(groupsSeen), 1)
      ensures Shared(sub) == old(SharedOf(alias))
    {
      groupsSeen := Add64(groupsSeen, 1);
      var found, aliasPending := subs.LookupDelivery(alias);
      return found;
    }

    static lemma WhatIsCarried(t: uint64, s: seq<byte>)
      ensures var p := ReadHeader(t, s);
              if p.Fail? then Contents(t, s) == None && HandleSubgroup(t, s).err == Some(p.error)
              else
                var (os, e) := ReadObjects(p.value.hasExtensions, None, p.rest);
                Contents(t, s) == Some(Carried(p.value.trackAlias, AllSeen(os))) && HandleSubgroup(t, s).err == Quiet(e)
    {
      hide ReadHeader, ReadObjects;
    }

    /** All counters and the sink. */
    function Counters(): (seq<byte>, uint64, uint64, uint64, uint64, uint64)
      reads this, sink
    {
      (sink.out, bytesWritten, objectsSeen, groupsSeen, gapHints, statusObjects)
    }

    /** No subscription but sub has been offered anything. */
    static twostate predicate OthersKeep(all: set<TrackSubscription>, sub: TrackSubscription?)
      reads all
    {
      forall x :: x in all && x != sub ==> x.firstObjCh == old(x.firstObjCh) && x.gotFirst == old(x.gotFirst)
    }

    function SharedOf(alias: uint64): Delivery.Shared
      reads this, sink, subs, Subscriptions()
    {
      Shared(Target(alias))
    }

    // ---------- control streams ----------

    method DispatchControlMessage(f: Frame) returns (err: Option<Error>)
      modifies this`peerSetupSeen
      ensures err == DispatchError(f)
      ensures peerSetupSeen == (old(peerSetupSeen) || (f.msgType == SETUP && err == None))
    {
      if f.msgType == SETUP {
        var setup := KeyValue.DecodeKeyValuePairs(f.payload);
        if setup.Err? {
          return Some(setup.error);
        }
        peerSetupSeen := true;
      }
      return None;
    }

    /** peerSetupSeen is closed once a SETUP has been dispatched. */
    static predicate SetupIn(es: seq<Event>)
    {
      exists k :: 0 <= k < |es| && es[k].Dispatched? && es[k].message.msgType == SETUP
    }

    method HandleControlStream(stream: Reader, firstMsgType: uint64) returns (err: Option<Error>)
      requires stream.Valid()
      modifies this`peerSetupSeen, stream`pos
      ensures err == HandleControl(firstMsgType, old(stream.Rest())).err
      ensures peerSetupSeen == (old(peerSetupSeen) || SetupIn(HandleControl(firstMsgType, old(stream.Rest())).events))
    {
      hide Varint.Read, Frames.ReadBody, Frames.Read, DispatchError;
      ghost var all := HandleControl(firstMsgType, stream.Rest());
      var firstBody := Frames.ReadFrameBody(stream);
      if firstBody.Err? {
        return Some(firstBody.error);
      }
      var f := Frame(firstMsgType, firstBody.value);
      var err1 := DispatchControlMessage(f);
      if err1 != None {
        return err1;
      }
      ghost var events := [Dispatched(f)];
      assert SetupIn(events) <==> f.msgType == SETUP by { assert events[0] == Dispatched(f); }
      while true
        invariant stream.Valid()
        invariant all == After(events, ControlLoop(stream.Rest()))
        invariant peerSetupSeen == (old(peerSetupSeen) || SetupIn(events))
        decreases |stream.Rest()|
      {
        var frame := Frames.ReadFrame(stream);
        if frame.Err? {
          assert events + [] == events;
          if frame.error == EOF {
            return None;
          }
          return Some(frame.error);
        }
        var errN := DispatchControlMessage(frame.value);
        if errN != None {
          assert events + [] == events;
          return errN;
        }
        AfterTwice(events, [Dispatched(frame.value)], ControlLoop(stream.Rest()));
        SetupMore(events, frame.value);
        events := events + [Dispatched(frame.value)];
      }
    }

    /** The peer's SETUP is reported if it is first on a control stream and decodes. */
    static lemma SetupIsReported(e: seq<byte>, body: seq<byte>, rest: seq<byte>)
      requires Varint.IsEncoding(e) && Varint.Value(e) == 0x2F00 && |body| <= 65535 && KeyValue.Decode(body).Ok?
      ensures SetupIn(HandleUni(e + (ToBytes(|body|, 2) + body + rest)).events)
    {
      hide Varint.Read, Varint.IsEncoding, Varint.Value, Frames.ReadBody, KeyValue.Decode, ToBytes, ControlLoop;
      Varint.ReadSplits(e, ToBytes(|body|, 2) + body + rest);
      Frames.BodyRoundTrip(body, rest);
      assert HandleUni(e + (ToBytes(|body|, 2) + body + rest)).events[0] == Dispatched(Frame(0x2F00, body));
    }

    static lemma SetupMore(es: seq<Event>, f: Frame)
      ensures SetupIn(es + [Dispatched(f)]) <==> SetupIn(es) || f.msgType == SETUP
    {
      var more := es + [Dispatched(f)];
      if SetupIn(es) {
        var k :| 0 <= k < |es| && es[k].Dispatched? && es[k].message.msgType == SETUP;
        assert more[k] == es[k];
      }
      assert more[|es|] == Dispatched(f);
    }

    // ---------- any unidirectional stream ----------

    /** The error is the one HandleUni computes; a control stream can report
        the peer's SETUP and nothing else, a subgroup stream delivers. */
    method HandleUniStream(stream: Reader) returns (err: Option<Error>)
      requires stream.Valid()
      modifies this, sink, stream`pos, Subscriptions()`firstObjCh, Subscriptions()`gotFirst
      ensures peerSetupSeen == (old(peerSetupSeen) || SetupIn(HandleUni(old(stream.Rest())).events))
      ensures match UniContents(old(stream.Rest()))
              case None =>
                && err == HandleUni(old(stream.Rest())).err
                && Counters() == old(Counters()) && OthersKeep(old(Subscriptions()), null)
              case Some(c) =>
                var d := Delivered(old(SharedOf(c.alias)), c);
                && err == (if d.failed then Some(WriteFailed) else HandleUni(old(stream.Rest())).err)
                && groupsSeen == Add64(old(groupsSeen), 1) && Shared(Target(c.alias)) == d.w
                && OthersKeep(old(Subscriptions()), Target(c.alias))
    {
      hide Varint.Read, HandleControl, HandleSubgroup, Delivery.DeliverAll, Contents;
      var streamType := Varint.ReadVarint(stream);
      if streamType.Err? {
        return Some(streamType.error);
      }
      var t := streamType.value;
      NoContents(t, stream.Rest());
      if t == SETUP {
        err := HandleControlStream(stream, t);
      } else if IsSubgroupStreamType(t) {
        SubgroupHasNoSetup(t, stream.Rest());
        err := HandleSubgroupStream(stream, t);
      } else {
        return None;
      }
    }

    static lemma NoContents(t: uint64, s: seq<byte>)
      ensures !IsSubgroupStreamType(t) ==> Contents(t, s) == None
    {}

    static lemma SubgroupHasNoSetup(t: uint64, s: seq<byte>)
      ensures !SetupIn(HandleSubgroup(t, s).events)
    {}

    /** The goroutine body of acceptUniStreams: what it posts to errCh. */
    method ServeUniStream(stream: Reader) returns (posted: Option<Error>)
      requires stream.Valid()
      modifies this, sink, stream`pos, Subscriptions()`firstObjCh, Subscriptions()`gotFirst
      ensures match UniContents(old(stream.Rest()))
              case None => posted == Posted(HandleUni(old(stream.Rest())).err)
              case Some(c) =>
                posted == if Delivered(old(SharedOf(c.alias)), c).failed then Some(WriteFailed)
                          else Posted(HandleUni(old(stream.Rest())).err)
    {
      var err := HandleUniStream(stream);
      if err != None && err.value != EOF {
        return err;
      }
      return None;
    }
  }
}
