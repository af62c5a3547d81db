// Conservation of the atomic counters, which many readers bump without a lock.
module Counters {
  import opened Bytes
  import opened Registry
  import opened Session
  import SinkOrder

  // ---------- sums over the streams ----------

  function SumOf(f: Stream -> nat, ts: seq<Stream>): nat
  {
    if ts == [] then 0 else f(ts[0]) + SumOf(f, ts[1..])
  }

  lemma {:induction false} SumUpdate(f: Stream -> nat, ts: seq<Stream>, i: nat, t: Stream)
    requires i < |ts|
    ensures SumOf(f, ts[i := t]) + f(ts[i]) == SumOf(f, ts) + f(t)
  {
    if i == 0 {
      assert ts[0 := t][1..] == ts[1..];
    } else {
      assert ts[i := t][1..] == ts[1..][i - 1 := t];
      SumUpdate(f, ts[1..], i - 1, t);
    }
  }

  lemma {:induction false} SumAppend(f: Stream -> nat, ts: seq<Stream>, t: Stream)
    ensures SumOf(f, ts + [t]) == SumOf(f, ts) + f(t)
  {
    if ts == [] {
      assert ts + [t] == [t];
      assert SumOf(f, [t]) == f(t) + SumOf(f, []);
    } else {
      assert (ts + [t])[1..] == ts[1..] + [t];
      SumAppend(f, ts[1..], t);
    }
  }

  // ---------- what each counter should show ----------

  function Hints(os: seq<Object>): (n: nat)
    ensures n <= |os|
  {
    if os == [] then 0 else Hints(os[..|os| - 1]) + (if os[|os| - 1].delta > 0 then 1 else 0)
  }

  function Statuses(os: seq<Object>): (n: nat)
    ensures n <= |os|
  {
    if os == [] then 0 else Statuses(os[..|os| - 1]) + (if os[|os| - 1].body.Status? then 1 else 0)
  }

  /** The objects read before the one being handled, if it is not counted yet. */
  function Settled(t: Stream, open: bool): seq<Object>
  {
    if open && t.read != [] then t.read[..|t.read| - 1] else t.read
  }

  function GroupsOf(t: Stream): nat { if t.pc.Opened? then 0 else 1 }

  function SeenOf(t: Stream): nat { |Settled(t, t.pc.Got?)| }

  function HintsOf(t: Stream): nat { Hints(Settled(t, t.pc.Got? || t.pc.Hinting?)) }

  function StatusOf(t: Stream): nat { Statuses(Settled(t, t.pc.Got? || t.pc.Hinting? || t.pc.Dispatching?)) }

  /** Bytes written and not yet added. */
  function PendingOf(t: Stream): nat { if t.pc.Adding? then t.pc.n else 0 }

  function BootPending(b: BootPc): nat { if b.CountingInit? then b.n else 0 }

  /** The object being handled is the last one read; only a positive delta is hinted. */
  predicate Current(t: Stream)
  {
    && (t.pc.Got? || t.pc.Hinting? || t.pc.Dispatching? ==> t.read != [] && t.read[|t.read| - 1] == t.pc.o)
    && (t.pc.Hinting? ==> t.pc.o.delta > 0)
  }

  ghost predicate Counted(s: State)
  {
    && (forall i :: 0 <= i < |s.streams| ==> Current(s.streams[i]))
    && s.groupsSeen == SumOf(GroupsOf, s.streams) % TWO_64
    && s.objectsSeen == SumOf(SeenOf, s.streams) % TWO_64
    && s.gapHints == SumOf(HintsOf, s.streams) % TWO_64
    && s.statusObjects == SumOf(StatusOf, s.streams) % TWO_64
  }

  ghost predicate Weighed(s: State)
  {
    (s.bytesWritten + SumOf(PendingOf, s.streams) + BootPending(s.boot)) % TWO_64 == |s.sink| % TWO_64
  }

  // ---------- the object counters ----------

  /** A counter and the weight of the moving stream go up by one together, or
      neither of them does. */
  predicate Tick(c: uint64, c': uint64, w: nat, w': nat)
  {
    (c' == c && w' == w) || (c' == Add64(c, 1) && w' == w + 1)
  }

  lemma TickKeeps(f: Stream -> nat, ts: seq<Stream>, i: nat, t: Stream, c: uint64, c': uint64)
    requires i < |ts| && c == SumOf(f, ts) % TWO_64 && Tick(c, c', f(ts[i]), f(t))
    ensures c' == SumOf(f, ts[i := t]) % TWO_64
  {
    SumUpdate(f, ts, i, t);
    AddWrapped(SumOf(f, ts), 1);
  }

  predicate Ticks(s: State, s': State, t: Stream, t': Stream)
  {
    && Tick(s.groupsSeen, s'.groupsSeen, GroupsOf(t), GroupsOf(t'))
    && Tick(s.objectsSeen, s'.objectsSeen, SeenOf(t), SeenOf(t'))
    && Tick(s.gapHints, s'.gapHints, HintsOf(t), HintsOf(t'))
    && Tick(s.statusObjects, s'.statusObjects, StatusOf(t), StatusOf(t'))
  }

  lemma StreamCounts(s: State, s': State, i: nat, t': Stream)
    requires Counted(s) && i < |s.streams| && s'.streams == s.streams[i := t']
    requires Current(t') && Ticks(s, s', s.streams[i], t')
    ensures Counted(s')
  {
    hide SumOf, Current, GroupsOf, SeenOf, HintsOf, StatusOf, Tick;
    TickKeeps(GroupsOf, s.streams, i, t', s.groupsSeen, s'.groupsSeen);
    TickKeeps(SeenOf, s.streams, i, t', s.objectsSeen, s'.objectsSeen);
    TickKeeps(HintsOf, s.streams, i, t', s.gapHints, s'.gapHints);
    TickKeeps(StatusOf, s.streams, i, t', s.statusObjects, s'.statusObjects);
  }

  /** The step of a subgroup reader, seen from the counters. */
  lemma StepTicks(s: State, i: nat)
    requires i < |s.streams| && Current(s.streams[i])
    ensures |StepStream(s, i).streams| == |s.streams|
    ensures StepStream(s, i).streams == s.streams[i := StepStream(s, i).streams[i]]
    ensures Current(StepStream(s, i).streams[i])
    ensures Ticks(s, StepStream(s, i), s.streams[i], StepStream(s, i).streams[i])
  {
    hide StepStream, Ticks, Current;
    var t := s.streams[i];
    StepShape(s, i);
    if t.pc.Got? || t.pc.Hinting? { CountTicks(s, i); }
    else if t.pc.Dispatching? { DispatchTicks(s, i); }
    else { OtherTicks(s, i); }
  }

  lemma StepShape(s: State, i: nat)
    requires i < |s.streams|
    ensures |StepStream(s, i).streams| == |s.streams|
    ensures StepStream(s, i).streams == s.streams[i := StepStream(s, i).streams[i]]
  {
    hide Lookup;
  }

  lemma CountTicks(s: State, i: nat)
    requires i < |s.streams| && Current(s.streams[i]) && (s.streams[i].pc.Got? || s.streams[i].pc.Hinting?)
    ensures |StepStream(s, i).streams| == |s.streams| && Current(StepStream(s, i).streams[i])
    ensures Ticks(s, StepStream(s, i), s.streams[i], StepStream(s, i).streams[i])
  {}

  lemma DispatchTicks(s: State, i: nat)
    requires i < |s.streams| && Current(s.streams[i]) && s.streams[i].pc.Dispatching?
    ensures |StepStream(s, i).streams| == |s.streams| && Current(StepStream(s, i).streams[i])
    ensures Ticks(s, StepStream(s, i), s.streams[i], StepStream(s, i).streams[i])
  {}

  lemma OtherTicks(s: State, i: nat)
    requires i < |s.streams| && Current(s.streams[i])
    requires !(s.streams[i].pc.Got? || s.streams[i].pc.Hinting? || s.streams[i].pc.Dispatching?)
    ensures |StepStream(s, i).streams| == |s.streams| && Current(StepStream(s, i).streams[i])
    ensures Ticks(s, StepStream(s, i), s.streams[i], StepStream(s, i).streams[i])
  {
    hide Lookup, Hints, Statuses;
  }

  lemma ReadTicks(s: State, i: nat, o: Object)
    requires i < |s.streams| && s.streams[i].pc == Looping
    ensures var t' := s.streams[i].(pc := Got(o), read := s.streams[i].read + [o]);
            Current(t') && Ticks(s, Next(s, Read(i, o)), s.streams[i], t')
  {
    assert (s.streams[i].read + [o])[..|s.streams[i].read|] == s.streams[i].read;
  }

  lemma OpenCounts(s: State, alias: uint64)
    requires Counted(s)
    ensures Counted(Next(s, Open(alias)))
  {
    hide SumOf;
    var t := Stream(alias, None, Opened, []);
    SumAppend(GroupsOf, s.streams, t);
    SumAppend(SeenOf, s.streams, t);
    SumAppend(HintsOf, s.streams, t);
    SumAppend(StatusOf, s.streams, t);
  }

  /** The other goroutines touch neither the streams nor these counters. */
  predicate Untouched(s: State, s': State)
  {
    && s'.streams == s.streams && s'.groupsSeen == s.groupsSeen && s'.objectsSeen == s.objectsSeen
    && s'.gapHints == s.gapHints && s'.statusObjects == s.statusObjects
  }

  lemma OthersUntouched(s: State, r: Role, m: Message)
    ensures Untouched(s, StepBoot(s)) && Untouched(s, FailBoot(s))
    ensures Untouched(s, Receive(s, r, m)) && Untouched(s, StepReader(s, r))
    ensures Untouched(s, Next(s, ReqClose(r)))
  {}

  lemma StepCounts(s: State, a: Action)
    requires Counted(s)
    ensures Counted(Next(s, a))
  {
    hide StepBoot, FailBoot, Receive, StepReader, StepStream, SumOf, Ticks;
    match a
    case BootStep => OthersUntouched(s, Media, Other);
    case BootFail => OthersUntouched(s, Media, Other);
    case ReqRecv(r, m) => OthersUntouched(s, r, m);
    case ReqStep(r) => OthersUntouched(s, r, Other);
    case ReqClose(r) => OthersUntouched(s, r, Other);
    case Open(alias) => OpenCounts(s, alias);
    case Read(i, o) => if i < |s.streams| && s.streams[i].pc == Looping {
      ReadTicks(s, i, o);
      StreamCounts(s, Next(s, a), i, Next(s, a).streams[i]);
    }
    case StreamStep(i) => if i < |s.streams| {
      StepTicks(s, i);
      StreamCounts(s, Next(s, a), i, Next(s, a).streams[i]);
    }
    case End(i) => EndCounts(s, i);
    case BreakWrite(i) => EndCounts(s, i);
  }

  lemma EndCounts(s: State, i: nat)
    requires Counted(s)
    ensures Counted(Next(s, End(i))) && Counted(Next(s, BreakWrite(i)))
  {
    hide SumOf;
    if i < |s.streams| {
      if s.streams[i].pc == Looping { StreamCounts(s, Next(s, End(i)), i, Next(s, End(i)).streams[i]); }
      if IsWriting(s.streams[i]) { StreamCounts(s, Next(s, BreakWrite(i)), i, Next(s, BreakWrite(i)).streams[i]); }
    }
  }

  // ---------- the byte counter ----------

  lemma ModAdd(a: nat, b: nat)
    ensures (a % TWO_64 + b) % TWO_64 == (a + b) % TWO_64
  {}

  /** Adding n to the counter while n leaves the pending bytes. */
  lemma SettleBytes(c: uint64, pending: nat, n: nat, total: nat)
    requires n <= pending && (c + pending) % TWO_64 == total % TWO_64
    ensures (Add64(c, n % TWO_64) + (pending - n)) % TWO_64 == total % TWO_64
  {
    assert Add64(c, n % TWO_64) == (c + n) % TWO_64 by { AddWrapped(n, c); }
    ModAdd(c + n, pending - n);
  }

  /** Writing n bytes that become pending. */
  lemma WriteBytes(c: uint64, pending: nat, n: nat, total: nat)
    requires (c + pending) % TWO_64 == total % TWO_64
    ensures (c + (pending + n)) % TWO_64 == (total + n) % TWO_64
  {
    ModAdd(c + pending, n);
    ModAdd(total, n);
  }

  lemma BootWeighs(s: State)
    requires Weighed(s)
    ensures Weighed(StepBoot(s))
  {
    hide SumOf, PendingOf;
    var pending := SumOf(PendingOf, s.streams);
    match s.boot
    case WritingInit(p) => WriteBytes(s.bytesWritten, pending, |p|, |s.sink|);
    case CountingInit(n) => SettleBytes(s.bytesWritten, pending + n, n, |s.sink|);
    case AwaitingOK(_) =>
    case AwaitingObject(_) =>
    case _ =>
  }

  /** What a subgroup reader's step does to the sink, the counter and the
      bytes pending. */
  lemma StepPending(s: State, i: nat)
    requires i < |s.streams|
    ensures var t, s' := s.streams[i], StepStream(s, i);
            && |s'.streams| == |s.streams| && s'.streams == s.streams[i := s'.streams[i]] && s'.boot == s.boot
            && (|| (IsWriting(t) && s'.bytesWritten == s.bytesWritten && PendingOf(t) == 0
                    && |s'.sink| == |s.sink| + PendingOf(s'.streams[i]))
                || (s'.bytesWritten == Add64(s.bytesWritten, PendingOf(t) % TWO_64) && PendingOf(s'.streams[i]) == 0
                    && s'.sink == s.sink))
  {
    hide Lookup;
  }

  lemma StreamWeighs(s: State, i: nat)
    requires Weighed(s) && i < |s.streams|
    ensures Weighed(StepStream(s, i))
  {
    hide StepStream, SumOf, PendingOf;
    StepPending(s, i);
    var t, s' := s.streams[i], StepStream(s, i);
    SumUpdate(PendingOf, s.streams, i, s'.streams[i]);
    var pending := SumOf(PendingOf, s.streams) + BootPending(s.boot);
    if IsWriting(t) && s'.bytesWritten == s.bytesWritten && PendingOf(t) == 0
       && |s'.sink| == |s.sink| + PendingOf(s'.streams[i])
    {
      WriteBytes(s.bytesWritten, pending, PendingOf(s'.streams[i]), |s.sink|);
    } else {
      SettleBytes(s.bytesWritten, pending, PendingOf(t), |s.sink|);
    }
  }

  /** Steps that neither write nor count bytes. */
  lemma QuietWeighs(s: State, s': State, i: nat, t: Stream)
    requires Weighed(s) && s'.sink == s.sink && s'.bytesWritten == s.bytesWritten && s'.boot == s.boot
    requires PendingOf(t) == 0
    requires s'.streams == s.streams || s'.streams == s.streams + [t]
             || (i < |s.streams| && PendingOf(s.streams[i]) == 0 && s'.streams == s.streams[i := t])
    ensures Weighed(s')
  {
    hide SumOf;
    SumAppend(PendingOf, s.streams, t);
    if i < |s.streams| { SumUpdate(PendingOf, s.streams, i, t); }
  }

  predicate SameBytes(s: State, s': State)
  {
    s'.streams == s.streams && s'.sink == s.sink && s'.bytesWritten == s.bytesWritten && s'.boot == s.boot
  }

  lemma OthersQuiet(s: State, r: Role, m: Message)
    ensures SameBytes(s, Receive(s, r, m)) && SameBytes(s, StepReader(s, r)) && SameBytes(s, Next(s, ReqClose(r)))
  {}

  lemma FailWeighs(s: State)
    requires Weighed(s)
    ensures Weighed(FailBoot(s))
  {
    hide SumOf;
  }

  lemma StepWeighs(s: State, a: Action)
    requires Weighed(s)
    ensures Weighed(Next(s, a))
  {
    hide StepBoot, FailBoot, Receive, StepReader, StepStream, SumOf, Weighed;
    var idle := Stream(0, None, Opened, []);
    match a
    case BootStep => BootWeighs(s);
    case BootFail => FailWeighs(s);
    case ReqRecv(r, m) => OthersQuiet(s, r, m); QuietWeighs(s, Next(s, a), 0, idle);
    case ReqStep(r) => OthersQuiet(s, r, Other); QuietWeighs(s, Next(s, a), 0, idle);
    case ReqClose(r) => OthersQuiet(s, r, Other); QuietWeighs(s, Next(s, a), 0, idle);
    case Open(alias) => QuietWeighs(s, Next(s, a), 0, Stream(alias, None, Opened, []));
    case Read(i, o) => if Next(s, a) != s { QuietWeighs(s, Next(s, a), i, Next(s, a).streams[i]); }
    case StreamStep(i) => if i < |s.streams| { StreamWeighs(s, i); }
    case End(i) => if Next(s, a) != s { QuietWeighs(s, Next(s, a), i, Next(s, a).streams[i]); }
    case BreakWrite(i) => if Next(s, a) != s { QuietWeighs(s, Next(s, a), i, Next(s, a).streams[i]); }
  }

  // ---------- every run ----------

  lemma {:induction false} AlwaysCounted(run: seq<Action>)
    ensures Counted(Exec(run)) && Weighed(Exec(run))
  {
    hide Next, Counted, Weighed;
    if run == [] {
      InitiallyCounted();
    } else {
      AlwaysCounted(run[..|run| - 1]);
      StepCounts(Exec(run[..|run| - 1]), run[|run| - 1]);
      StepWeighs(Exec(run[..|run| - 1]), run[|run| - 1]);
    }
  }

  lemma InitiallyCounted()
    ensures Counted(INITIAL) && Weighed(INITIAL)
  {}

  /** In every reachable state the bytes counted, plus the bytes that readers
      and the bootstrap have written and not added yet, are the bytes of the
      sink; when nothing is pending the counter is the length of the sink. */
  lemma BytesConserved(run: seq<Action>)
    ensures var s := Exec(run); var pending := SumOf(PendingOf, s.streams) + BootPending(s.boot);
            && (s.bytesWritten + pending) % TWO_64 == |s.sink| % TWO_64
            && (pending == 0 && |s.sink| < TWO_64 ==> s.bytesWritten == |s.sink|)
  {
    hide SumOf, Exec;
    AlwaysCounted(run);
  }

  // ---------- objects ----------

  /** Between objects. */
  predicate Idle(t: Stream)
  {
    t.pc.Opened? || t.pc.Headed? || t.pc.Looping? || t.pc.Ended?
  }

  function ReadOf(t: Stream): nat { |t.read| }

  function StatusesOf(t: Stream): nat { Statuses(t.read) }

  function AllHintsOf(t: Stream): nat { Hints(t.read) }

  function UnmappedOf(t: Stream): nat { if t.sub == None then |SinkOrder.Payloads(t.read)| else 0 }

  /** Payloads handed to the catalog or the init subscription. */
  function HandedOf(t: Stream): nat
  {
    if t.sub == Some(Catalog) || t.sub == Some(Init) then |SinkOrder.Payloads(t.read)| else 0
  }

  function MediaOf(t: Stream): nat { if t.sub == Some(Media) then |SinkOrder.Payloads(t.read)| else 0 }

  // ---------- writes ----------

  /** The writes of the first n streams. */
  function FromStreams(log: seq<Entry>, n: nat): nat
  {
    if n == 0 then 0 else FromStreams(log, n - 1) + |SinkOrder.Written(log, n - 1)|
  }

  lemma {:induction false} FromStreamsStep(log: seq<Entry>, e: Entry, n: nat)
    ensures FromStreams(log + [e], n) == FromStreams(log, n) + (if e.src.FromStream? && e.src.i < n then 1 else 0)
  {
    hide SinkOrder.Written;
    if n > 0 {
      FromStreamsStep(log, e, n - 1);
      WrittenStep(log, e, n - 1);
    }
  }

  lemma WrittenStep(log: seq<Entry>, e: Entry, i: nat)
    ensures |SinkOrder.Written(log + [e], i)|
            == |SinkOrder.Written(log, i)| + (if e.src == FromStream(i) then 1 else 0)
  {
    assert (log + [e])[..|log|] == log;
  }

  lemma {:induction false} NothingWritten(n: nat)
    ensures FromStreams([], n) == 0
  {
    if n > 0 { NothingWritten(n - 1); }
  }

  /** Media writes are all writes but the first. */
  function MediaWrites(log: seq<Entry>): nat
  {
    if log == [] then 0 else |log| - 1
  }

  lemma {:induction false} LogIsWrites(log: seq<Entry>, n: nat)
    requires log != [] ==> log[0].src == FromInit
    requires forall k :: 1 <= k < |log| ==> log[k].src.FromStream? && log[k].src.i < n
    ensures FromStreams(log, n) == MediaWrites(log)
    decreases |log|
  {
    hide FromStreams;
    if log == [] {
      NothingWritten(n);
    } else {
      var front, e := log[..|log| - 1], log[|log| - 1];
      LogIsWrites(front, n);
      FromStreamsStep(front, e, n);
      assert log == front + [e];
    }
  }

  lemma {:induction false} MediaSum(ts: seq<Stream>, log: seq<Entry>, n: nat)
    requires n <= |ts| && forall i :: 0 <= i < n ==> Idle(ts[i]) && SinkOrder.Complete(log, i, ts[i])
    ensures SumOf(MediaOf, ts[..n]) == FromStreams(log, n)
    decreases n
  {
    hide SumOf, SinkOrder.Written, SinkOrder.Payloads;
    if n == 0 {
      assert SumOf(MediaOf, []) == 0 by { EmptySum(); }
    } else {
      MediaSum(ts, log, n - 1);
      assert ts[..n] == ts[..n - 1] + [ts[n - 1]];
      SumAppend(MediaOf, ts[..n - 1], ts[n - 1]);
    }
  }

  lemma EmptySum()
    ensures SumOf(MediaOf, []) == 0
  {}

  lemma {:induction false} ObjectKinds(os: seq<Object>)
    ensures |os| == Statuses(os) + |SinkOrder.Payloads(os)|
  {
    if os != [] { ObjectKinds(os[..|os| - 1]); }
  }

  lemma KindsOf(t: Stream)
    ensures ReadOf(t) == StatusesOf(t) + UnmappedOf(t) + HandedOf(t) + MediaOf(t) && AllHintsOf(t) <= ReadOf(t)
  {
    ObjectKinds(t.read);
    match t.sub
    case None =>
    case Some(Catalog) =>
    case Some(Init) =>
    case Some(Media) =>
  }

  lemma {:induction false} SumsSplit(ts: seq<Stream>)
    ensures SumOf(ReadOf, ts)
            == SumOf(StatusesOf, ts) + SumOf(UnmappedOf, ts) + SumOf(HandedOf, ts) + SumOf(MediaOf, ts)
    ensures SumOf(AllHintsOf, ts) <= SumOf(ReadOf, ts)
  {
    hide ReadOf, StatusesOf, UnmappedOf, HandedOf, MediaOf, AllHintsOf;
    if ts != [] {
      KindsOf(ts[0]);
      SumsSplit(ts[1..]);
    }
  }

  lemma {:induction false} IdleSums(ts: seq<Stream>)
    requires forall i :: 0 <= i < |ts| ==> Idle(ts[i])
    ensures SumOf(SeenOf, ts) == SumOf(ReadOf, ts)
    ensures SumOf(StatusOf, ts) == SumOf(StatusesOf, ts)
    ensures SumOf(HintsOf, ts) == SumOf(AllHintsOf, ts)
  {
    if ts != [] {
      assert Idle(ts[0]);
      IdleSums(ts[1..]);
    }
  }

  /** When no reader is in the middle of an object, every object read has been
      counted once: as a status object, as unmapped, as handed to the catalog or
      init subscription, or as a write of media to the sink. Gap hints never
      outnumber objects while the counters have not wrapped. */
  lemma ObjectsConserved(run: seq<Action>)
    requires forall i :: 0 <= i < |Exec(run).streams| ==> Idle(Exec(run).streams[i])
    ensures Conserved(Exec(run))
  {
    hide Exec, Conserved;
    AlwaysCounted(run);
    SinkOrder.AlwaysOrdered(run);
    StateConserves(Exec(run));
  }

  predicate Conserved(s: State)
  {
    var ts := s.streams;
    var unmapped, handed, written := SumOf(UnmappedOf, ts), SumOf(HandedOf, ts), MediaWrites(s.log);
    && s.objectsSeen == (SumOf(StatusesOf, ts) + unmapped + handed + written) % TWO_64
    && s.statusObjects == SumOf(StatusesOf, ts) % TWO_64
    && s.gapHints == SumOf(AllHintsOf, ts) % TWO_64
    && (SumOf(ReadOf, ts) < TWO_64 ==>
          && s.gapHints <= s.objectsSeen
          && s.objectsSeen == s.statusObjects + unmapped + handed + written)
  }

  lemma StateConserves(s: State)
    requires Counted(s) && SinkOrder.Streams(s) && forall i :: 0 <= i < |s.streams| ==> Idle(s.streams[i])
    ensures Conserved(s)
  {
    hide SumOf, Current, Idle;
    IdleSums(s.streams);
    SumsSplit(s.streams);
    MediaSum(s.streams, s.log, |s.streams|);
    assert s.streams[..|s.streams|] == s.streams;
    LogIsWrites(s.log, |s.streams|);
  }
}
