// What reaches the sink, in every interleaving and for every relay: the init
// segment first and once, then whole media payloads, each of them once and in
// the order of its stream.
module SinkOrder {
  import opened Bytes
  import opened Registry
  import opened Session
  import opened Invariants

  // ---------- streams ----------

  /** The payloads of the objects that are not status objects. */
  function Payloads(os: seq<Object>): seq<Payload>
  {
    if os == [] then [] else Payloads(os[..|os| - 1]) + PayloadOf(os[|os| - 1])
  }

  function PayloadOf(o: Object): seq<Payload>
  {
    if o.body.Data? then [o.body.payload] else []
  }

  /** What a media reader has read and not written. */
  function InFlight(pc: StreamPc): seq<Payload>
  {
    match pc
    case Got(o) => PayloadOf(o)
    case Hinting(o) => PayloadOf(o)
    case Dispatching(o) => PayloadOf(o)
    case Broken(p) => [p]
    case _ => []
  }

  /** What stream i has written. */
  function Written(log: seq<Entry>, i: nat): seq<Payload>
  {
    if log == [] then []
    else Written(log[..|log| - 1], i) + (if log[|log| - 1].src == FromStream(i) then [log[|log| - 1].payload] else [])
  }

  function LogBytes(log: seq<Entry>): seq<byte>
  {
    if log == [] then [] else LogBytes(log[..|log| - 1]) + log[|log| - 1].payload
  }

  lemma LogAppend(log: seq<Entry>, e: Entry)
    ensures LogBytes(log + [e]) == LogBytes(log) + e.payload
    ensures forall i :: Written(log + [e], i) == Written(log, i) + (if e.src == FromStream(i) then [e.payload] else [])
  {
    assert (log + [e])[..|log|] == log;
  }

  lemma ReadAppend(os: seq<Object>, o: Object)
    ensures Payloads(os + [o]) == Payloads(os) + PayloadOf(o)
  {
    assert (os + [o])[..|os|] == os;
  }

  lemma {:induction false} WrittenNone(log: seq<Entry>, i: nat)
    requires forall k :: 0 <= k < |log| ==> log[k].src != FromStream(i)
    ensures Written(log, i) == []
  {
    if log != [] { WrittenNone(log[..|log| - 1], i); }
  }

  /** Before the lookup nothing is read; only a catalog or init reader gets as
      far as offering. */
  predicate Local(t: Stream)
  {
    && (t.pc.Opened? || t.pc.Headed? ==> t.sub == None && t.read == [])
    && (t.pc.Marking? || t.pc.Offering? ==> t.sub == Some(Catalog) || t.sub == Some(Init))
  }

  /** Stream i has written exactly once, and in order, every payload it has
      read except the one in flight. A stream of another role writes nothing. */
  predicate Complete(log: seq<Entry>, i: nat, t: Stream)
  {
    if t.sub == Some(Media) then Payloads(t.read) == Written(log, i) + InFlight(t.pc)
    else Written(log, i) == []
  }

  predicate FromMedia(streams: seq<Stream>, e: Entry)
  {
    e.src.FromStream? && e.src.i < |streams| && streams[e.src.i].sub == Some(Media)
  }

  ghost predicate Streams(s: State)
  {
    && (forall i :: 0 <= i < |s.streams| ==> Local(s.streams[i]) && Complete(s.log, i, s.streams[i]))
    && (s.log != [] ==> s.log[0].src == FromInit)
    && (forall k :: 1 <= k < |s.log| ==> FromMedia(s.streams, s.log[k]))
  }

  // ---------- the order of the sink ----------

  /** The media subscription cannot be found: not in either map, not by any
      stream that has looked. */
  ghost predicate NoMedia(s: State)
  {
    && s.subs.media.reader == NotStarted
    && !Registered(s.reg, Media) && !BoundSome(s.reg, Media)
    && forall i :: 0 <= i < |s.streams| ==> s.streams[i].sub != Some(Media)
  }

  ghost predicate Order(s: State)
  {
    && s.sink == LogBytes(s.log)
    && (Rank(s.boot) <= 17 ==> s.log == [])
    && (18 <= Rank(s.boot) <= 30 ==> s.log != [])
    && (s.log == [] ==> NoMedia(s))
    && (s.log != [] ==> s.subs.init.first == Some(s.log[0].payload))
    && (s.boot.WritingInit? ==> s.subs.init.first == Some(s.boot.payload))
  }

  // ---------- steps of the bootstrap and of the request readers ----------

  lemma BootOrder(s: State)
    requires Progress(s) && Order(s) && Streams(s)
    ensures Order(StepBoot(s)) && Streams(StepBoot(s))
  {
    hide NotYet, Rank, StepBoot, NoMedia, LogBytes, Written, Local, Complete;
    if s.boot.WritingInit? {
      WriteInitOrder(s);
    } else {
      BootFrame(s);
      RankGrows(s);
      BootRank(s);
    }
  }

  /** All other bootstrap steps leave the sink and the streams alone, and touch
      the media subscription only after the init write. */
  lemma BootFrame(s: State)
    requires Progress(s) && !s.boot.WritingInit?
    ensures var s' := StepBoot(s);
            && s'.sink == s.sink && s'.log == s.log && s'.streams == s.streams
            && (s'.subs.init.first == s.subs.init.first || Rank(s.boot) == 16)
            && (s'.boot.WritingInit? ==> s'.subs.init.first == Some(s'.boot.payload))
            && (NoMedia(s) && Rank(s.boot) <= 17 ==> NoMedia(s'))
            && (NoMedia(s) && s.boot == Failed ==> NoMedia(s'))
  {
    hide Registered, BoundSome;
    BootRegistry(s, Media);
    assert BoundSome(StepBoot(s).reg, Media) ==> BoundSome(s.reg, Media) by { SameAliases(s, Media); }
    match s.boot
    case Start(_) =>
    case Registering(_) =>
    case Sending(_) =>
    case Spawning(_) =>
    case AwaitingOK(_) =>
    case AwaitingObject(_) =>
    case _ =>
  }

  lemma BootRank(s: State)
    requires !s.boot.WritingInit? && s.boot != AwaitingObject(Media)
    ensures 18 <= Rank(StepBoot(s).boot) <= 30 ==> 18 <= Rank(s.boot) <= 30
    ensures Rank(s.boot) > 30 ==> s.boot == Failed
  {}

  lemma WriteInitOrder(s: State)
    requires Progress(s) && Order(s) && Streams(s) && s.boot.WritingInit?
    ensures Order(StepBoot(s)) && Streams(StepBoot(s))
  {
    hide NotYet, Local;
    var e := Entry(FromInit, s.boot.payload);
    LogAppend([], e);
    assert [] + [e] == [e];
    forall i | 0 <= i < |s.streams| ensures Complete([e], i, s.streams[i]) {
      assert Complete([], i, s.streams[i]) && Written([e], i) == [];
    }
  }

  lemma FailOrder(s: State)
    requires Order(s) && Streams(s)
    ensures Order(FailBoot(s)) && Streams(FailBoot(s))
  {}

  lemma ReceiveOrder(s: State, q: Role, m: Message)
    requires Order(s) && Streams(s)
    ensures Order(Receive(s, q, m)) && Streams(Receive(s, q, m))
  {}

  /** Steps of a request reader that leave the sink and the streams alone. */
  lemma ReaderLeaves(s: State, q: Role)
    ensures var s' := StepReader(s, q);
            && s'.streams == s.streams && s'.log == s.log && s'.sink == s.sink
            && s'.subs.init.first == s.subs.init.first
  {}

  lemma ReaderOrder(s: State, q: Role)
    requires Order(s) && Streams(s)
    ensures Order(StepReader(s, q)) && Streams(StepReader(s, q))
  {
    hide StepReader;
    StepReaderKeeps(s, q);
    ReaderLeaves(s, q);
    assert !BoundSome(s.reg, Media) && q != Media ==> !BoundSome(StepReader(s, q).reg, Media);
  }

  // ---------- steps of the subgroup readers ----------

  /** Stream i becomes t and writes what is added to the log. */
  predicate Update(s: State, s': State, i: nat, t: Stream, added: seq<Entry>)
    requires i < |s.streams|
  {
    && s'.streams == s.streams[i := t] && s'.log == s.log + added && s'.boot == s.boot
    && (added == [] || (|added| == 1 && added[0].src == FromStream(i) && t.sub == Some(Media)))
    && (s.streams[i].sub == Some(Media) ==> t.sub == Some(Media))
    && (t.sub == Some(Media) ==> s.log != [])
    && s'.sink == s.sink + LogBytes(added) && s'.reg == s.reg
    && s'.subs.init.first == s.subs.init.first && s'.subs.media.reader == s.subs.media.reader
  }

  lemma UpdateStream(s: State, s': State, i: nat, t: Stream, added: seq<Entry>)
    requires Order(s) && Streams(s) && i < |s.streams|
    requires Update(s, s', i, t, added) && Local(t) && Complete(s'.log, i, t)
    ensures Order(s') && Streams(s')
  {
    UpdateOrder(s, s', i, t, added);
    UpdateStreams(s, s', i, t, added);
  }

  lemma UpdateOrder(s: State, s': State, i: nat, t: Stream, added: seq<Entry>)
    requires Order(s) && i < |s.streams| && Update(s, s', i, t, added)
    ensures Order(s')
  {
    hide Rank, Registered, BoundSome;
    if added == [] {
      assert s.log + [] == s.log;
      EmptyLog(s.sink);
    } else {
      assert added == [added[0]];
      OneEntry(added[0]);
      LogAppend(s.log, added[0]);
    }
  }

  lemma UpdateStreams(s: State, s': State, i: nat, t: Stream, added: seq<Entry>)
    requires Streams(s) && i < |s.streams|
    requires Update(s, s', i, t, added) && Local(t) && Complete(s'.log, i, t)
    ensures Streams(s')
  {
    hide Local, LogBytes, Written, Payloads, InFlight;
    forall j | 0 <= j < |s'.streams| ensures Local(s'.streams[j]) && Complete(s'.log, j, s'.streams[j]) {
      if j != i {
        assert Local(s.streams[j]) && Complete(s.log, j, s.streams[j]);
        OthersWrite(s.log, added, i, j);
      }
    }
    forall k | 1 <= k < |s'.log| ensures FromMedia(s'.streams, s'.log[k]) {
      if k < |s.log| { assert FromMedia(s.streams, s.log[k]); }
    }
  }

  /** Writes of stream i are none of stream j's. */
  lemma OthersWrite(log: seq<Entry>, added: seq<Entry>, i: nat, j: nat)
    requires i != j && (added == [] || (|added| == 1 && added[0].src == FromStream(i)))
    ensures Written(log + added, j) == Written(log, j)
  {
    hide Written;
    if added == [] {
      assert log + added == log;
    } else {
      assert added == [added[0]];
      LogAppend(log, added[0]);
      assert Written(log, j) + [] == Written(log, j);
    }
  }

  lemma OpenOrder(s: State, alias: uint64)
    requires Order(s) && Streams(s)
    ensures Order(Next(s, Open(alias))) && Streams(Next(s, Open(alias)))
  {
    hide Rank, Registered, BoundSome, LogBytes, Complete;
    var s' := Next(s, Open(alias));
    var n := |s.streams|;
    forall k | 0 <= k < |s.log| ensures s.log[k].src != FromStream(n) {
      if k > 0 { assert FromMedia(s.streams, s.log[k]); }
    }
    NewStreamComplete(s.log, n, alias);
    forall k | 1 <= k < |s'.log| ensures FromMedia(s'.streams, s'.log[k]) {
      assert FromMedia(s.streams, s.log[k]);
    }
  }

  lemma NewStreamComplete(log: seq<Entry>, n: nat, alias: uint64)
    requires forall k :: 0 <= k < |log| ==> log[k].src != FromStream(n)
    ensures Complete(log, n, Stream(alias, None, Opened, []))
  {
    WrittenNone(log, n);
  }

  lemma ReadOrder(s: State, i: nat, o: Object)
    requires Order(s) && Streams(s)
    ensures Order(Next(s, Read(i, o))) && Streams(Next(s, Read(i, o)))
  {
    hide Order, Streams, LogBytes, Written, Payloads;
    if i < |s.streams| && s.streams[i].pc == Looping {
      var t := s.streams[i];
      StreamFacts(s, i);
      var t' := t.(pc := Got(o), read := t.read + [o]);
      ReadAppend(t.read, o);
      assert Payloads(t.read) + [] == Payloads(t.read) && Written(s.log, i) + [] == Written(s.log, i);
      assert s.log + [] == s.log && s.sink + [] == s.sink;
      EmptyLog(s.sink);
      UpdateStream(s, Next(s, Read(i, o)), i, t', []);
    }
  }

  lemma EmptyLog(b: seq<byte>)
    ensures LogBytes([]) == [] && b + LogBytes([]) == b
  {}

  lemma StreamFacts(s: State, i: nat)
    requires Order(s) && Streams(s) && i < |s.streams|
    ensures Local(s.streams[i]) && Complete(s.log, i, s.streams[i])
    ensures s.streams[i].sub == Some(Media) ==> s.log != []
  {}

  /** A step that moves stream i on without reading or writing, and loses
      nothing that was in flight. */
  lemma MoveOrder(s: State, s': State, i: nat, t: Stream)
    requires Order(s) && Streams(s) && i < |s.streams|
    requires s'.streams == s.streams[i := t] && s'.log == s.log && s'.boot == s.boot && s'.sink == s.sink
    requires s'.reg == s.reg
    requires s'.subs.init.first == s.subs.init.first && s'.subs.media.reader == s.subs.media.reader
    requires t == s.streams[i].(pc := t.pc) && Local(t)
    requires t.sub == Some(Media) ==> InFlight(t.pc) == InFlight(s.streams[i].pc)
    ensures Order(s') && Streams(s')
  {
    hide Order, Streams, LogBytes, Local, InFlight;
    StreamFacts(s, i);
    assert s.log + [] == s.log;
    EmptyLog(s.sink);
    UpdateStream(s, s', i, t, []);
  }

  lemma StepStreamOrder(s: State, i: nat)
    requires Order(s) && Streams(s) && i < |s.streams|
    ensures Order(StepStream(s, i)) && Streams(StepStream(s, i))
  {
    hide Order, Streams, LogBytes, Complete, StepStream, Local, InFlight;
    var t := s.streams[i];
    StreamFacts(s, i);
    if t.pc.Headed? {
      LookupOrder(s, i);
    } else if IsWriting(t) {
      WriteOrder(s, i);
    } else {
      StepMoves(s, i);
      if StepStream(s, i) != s { MoveOrder(s, StepStream(s, i), i, StepStream(s, i).streams[i]); }
    }
  }

  lemma StepMoves(s: State, i: nat)
    requires i < |s.streams| && Local(s.streams[i]) && !s.streams[i].pc.Headed? && !IsWriting(s.streams[i])
    ensures var t, s' := s.streams[i], StepStream(s, i);
            s' != s ==>
              && s'.log == s.log && s'.boot == s.boot && s'.sink == s.sink && s'.reg == s.reg
              && s'.subs.init.first == s.subs.init.first && s'.subs.media.reader == s.subs.media.reader
              && |s'.streams| == |s.streams|
              && (var t' := s'.streams[i];
                  && s'.streams == s.streams[i := t'] && t' == t.(pc := t'.pc) && Local(t')
                  && (t'.sub == Some(Media) ==> InFlight(t'.pc) == InFlight(t.pc)))
  {}

  /** The lookup finds the media subscription only after the init write. */
  lemma LookupOrder(s: State, i: nat)
    requires Order(s) && Streams(s) && i < |s.streams| && s.streams[i].pc.Headed?
    ensures Order(StepStream(s, i)) && Streams(StepStream(s, i))
  {
    hide Order, Streams, LogBytes;
    var t := s.streams[i];
    StreamFacts(s, i);
    MediaIsHidden(s, t.alias);
    assert s.log + [] == s.log;
    EmptyLog(s.sink);
    UpdateStream(s, StepStream(s, i), i, StepStream(s, i).streams[i], []);
  }

  /** No lookup, of whatever alias, finds the media subscription before the
      init segment has been written. */
  lemma MediaIsHidden(s: State, alias: uint64)
    requires Order(s)
    ensures Lookup(s.reg, alias) == Some(Media) ==> s.log != []
  {}

  lemma WriteOrder(s: State, i: nat)
    requires Order(s) && Streams(s) && i < |s.streams| && IsWriting(s.streams[i])
    ensures Order(StepStream(s, i)) && Streams(StepStream(s, i))
  {
    hide Order, Streams, LogBytes, Written;
    var t, s' := s.streams[i], StepStream(s, i);
    StreamFacts(s, i);
    var e := Entry(FromStream(i), t.pc.o.body.payload);
    LogAppend(s.log, e);
    OneEntry(e);
    assert Written(s.log, i) + [e.payload] + [] == Written(s.log, i) + [e.payload];
    UpdateStream(s, s', i, s'.streams[i], [e]);
  }

  lemma OneEntry(e: Entry)
    ensures LogBytes([e]) == e.payload
  {
    assert LogBytes([e]) == [] + e.payload;
  }

  lemma EndOrder(s: State, i: nat)
    requires Order(s) && Streams(s) && i < |s.streams|
    ensures Order(Next(s, End(i))) && Streams(Next(s, End(i)))
    ensures Order(Next(s, BreakWrite(i))) && Streams(Next(s, BreakWrite(i)))
  {
    hide Order, Streams, LogBytes, Complete;
    var t := s.streams[i];
    StreamFacts(s, i);
    if t.pc == Looping { MoveOrder(s, Next(s, End(i)), i, t.(pc := Ended)); }
    if IsWriting(t) { MoveOrder(s, Next(s, BreakWrite(i)), i, t.(pc := Broken(t.pc.o.body.payload))); }
  }

  // ---------- every run ----------

  lemma StepKeepsOrder(s: State, a: Action)
    requires Progress(s) && Order(s) && Streams(s)
    ensures Order(Next(s, a)) && Streams(Next(s, a))
  {
    hide Progress, Order, Streams, StepBoot, FailBoot, Receive, StepReader, StepStream;
    match a
    case BootStep => BootOrder(s);
    case BootFail => FailOrder(s);
    case ReqRecv(r, m) => ReceiveOrder(s, r, m);
    case ReqStep(r) => ReaderOrder(s, r);
    case ReqClose(r) => CloseOrder(s, r);
    case Open(alias) => OpenOrder(s, alias);
    case Read(i, o) => ReadOrder(s, i, o);
    case StreamStep(i) => if i < |s.streams| { StepStreamOrder(s, i); }
    case End(i) => if i < |s.streams| { EndOrder(s, i); }
    case BreakWrite(i) => if i < |s.streams| { EndOrder(s, i); }
  }

  lemma CloseOrder(s: State, r: Role)
    requires Order(s) && Streams(s)
    ensures Order(Next(s, ReqClose(r))) && Streams(Next(s, ReqClose(r)))
  {}

  lemma {:induction false} AlwaysOrdered(run: seq<Action>)
    ensures Progress(Exec(run)) && Order(Exec(run)) && Streams(Exec(run))
  {
    hide Next, Progress, Order, Streams;
    if run == [] {
      InitiallyOrdered();
    } else {
      var s := Exec(run[..|run| - 1]);
      AlwaysOrdered(run[..|run| - 1]);
      ProgressStep(s, run[|run| - 1]);
      StepKeepsOrder(s, run[|run| - 1]);
    }
  }

  lemma InitiallyOrdered()
    ensures Progress(INITIAL) && Order(INITIAL) && Streams(INITIAL)
  {}

  /** Safety of the sink. In every reachable state it is empty, or it is the
      payload that waitFirstObject returned for the init track followed by
      whole payloads from media streams. */
  lemma InitBeforeMedia(run: seq<Action>)
    ensures var s := Exec(run);
            if s.log == [] then s.sink == []
            else
              && s.log[0].src == FromInit && s.subs.init.first == Some(s.log[0].payload)
              && s.sink == s.log[0].payload + LogBytes(s.log[1..])
              && (forall k :: 1 <= k < |s.log| ==> FromMedia(s.streams, s.log[k]))
  {
    AlwaysOrdered(run);
    var log := Exec(run).log;
    if log != [] {
      LogSplit(log);
    }
  }

  lemma {:induction false} LogSplit(log: seq<Entry>)
    requires log != []
    ensures LogBytes(log) == log[0].payload + LogBytes(log[1..])
  {
    var n := |log| - 1;
    if n == 0 {
      OneEntry(log[0]);
      assert log == [log[0]] && log[0].payload + [] == log[0].payload;
    } else {
      LogSplit(log[..n]);
      assert log[1..][..n - 1] == log[..n][1..];
      var middle := LogBytes(log[..n][1..]);
      assert log[0].payload + (middle + log[n].payload) == log[0].payload + middle + log[n].payload;
    }
  }

  /** Until the init write has happened, the media subscription is in neither
      map, so that no subgroup stream is routed to it. */
  lemma MediaUnreachableBeforeInit(run: seq<Action>, alias: uint64)
    ensures var s := Exec(run); s.log == [] ==> Lookup(s.reg, alias) != Some(Media) && NoMedia(s)
  {
    AlwaysOrdered(run);
    MediaIsHidden(Exec(run), alias);
  }

  /** Completeness of the sink. What follows the init segment is a shuffle of
      the media streams: each of them has written, exactly once and in wire
      order, the payloads it has read, except possibly the one in flight; and
      nothing else is in the sink. */
  lemma MediaExactlyOnce(run: seq<Action>, i: nat)
    requires i < |Exec(run).streams|
    ensures var s := Exec(run); var t := s.streams[i];
            && (t.sub == Some(Media) ==>
                  Payloads(t.read) == Written(s.log, i) + InFlight(t.pc) && |InFlight(t.pc)| <= 1)
            && (t.sub != Some(Media) ==> Written(s.log, i) == [])
  {
    AlwaysOrdered(run);
  }
}
