// The hand-off channels between the readers and the bootstrap: what is received
// is what was offered first, whatever the interleaving.
module Handoff {
  import opened Bytes
  import opened Registry
  import opened Session
  import opened Invariants
  import SinkOrder

  /** The first SUBSCRIBE_OK or REQUEST_ERROR on a request stream. */
  function FirstVerdict(ms: seq<Message>): Option<Verdict>
  {
    if ms == [] then None
    else
      match ms[0]
      case SubscribeOK(a) => Some(Accepted(a))
      case RequestError => Some(Rejected)
      case Other => FirstVerdict(ms[1..])
  }

  lemma {:induction false} FirstVerdictAppend(ms: seq<Message>, m: Message)
    ensures FirstVerdict(ms + [m]) == if FirstVerdict(ms) == None then FirstVerdict([m]) else FirstVerdict(ms)
  {
    if ms == [] {
      assert ms + [m] == [m];
    } else {
      assert (ms + [m])[1..] == ms[1..] + [m];
      FirstVerdictAppend(ms[1..], m);
    }
  }

  /** A verdict that the reader has decoded and not sent yet. */
  function Pending(pc: ReaderPc): Option<Verdict>
  {
    match pc
    case Binding(a) => Some(Accepted(a))
    case Signalling(a) => Some(Accepted(a))
    case Refusing => Some(Rejected)
    case _ => None
  }

  /** Until the bootstrap has received, the channel holds what came first. */
  predicate FirstComesFirst(sub: Sub)
  {
    && FirstVerdict(sub.messages) ==
         (if sub.verdict != None then sub.verdict else if sub.okCh != None then sub.okCh else Pending(sub.reader))
    && (sub.first == None && sub.firstCh == None ==> sub.offers == [])
    && (sub.first == None && sub.firstCh != None ==> sub.offers != [] && sub.firstCh == Some(sub.offers[0]))
    && (sub.first != None ==> sub.offers != [] && sub.first == Some(sub.offers[0]))
  }

  /** An alias is bound before it is signalled. */
  predicate BoundFirst(s: State, r: Role)
  {
    var sub := s.subs.Get(r);
    && (sub.reader.Signalling? ==> (sub.reader.alias, r) in s.bound)
    && (sub.okCh.Some? && sub.okCh.value.Accepted? ==> (sub.okCh.value.alias, r) in s.bound)
    && (sub.verdict.Some? && sub.verdict.value.Accepted? ==> (sub.verdict.value.alias, r) in s.bound)
  }

  ghost predicate Handed(s: State)
  {
    && (forall r :: FirstComesFirst(s.subs.Get(r)) && BoundFirst(s, r))
    && (forall b :: b in s.bound ==> b.0 in s.reg.byAlias)
  }

  // ---------- provenance of the offers ----------

  /** The object being handled is one that was read. */
  predicate FromRead(t: Stream)
  {
    match t.pc
    case Got(o) => o in t.read
    case Hinting(o) => o in t.read
    case Dispatching(o) => o in t.read
    case Marking(p) => exists o :: o in t.read && o.body == Data(p)
    case Offering(p) => exists o :: o in t.read && o.body == Data(p)
    case _ => true
  }

  /** Some stream of this role has read p. */
  ghost predicate ReadBySome(streams: seq<Stream>, r: Role, p: Payload)
  {
    exists i, o :: 0 <= i < |streams| && streams[i].sub == Some(r) && o in streams[i].read && o.body == Data(p)
  }

  ghost predicate Genuine(s: State)
  {
    && (forall i :: 0 <= i < |s.streams| ==> FromRead(s.streams[i]) && SinkOrder.Local(s.streams[i]))
    && (forall r, k :: 0 <= k < |s.subs.Get(r).offers| ==> ReadBySome(s.streams, r, s.subs.Get(r).offers[k]))
  }

  // ---------- steps ----------

  lemma BootHands(s: State)
    requires Progress(s) && Handed(s)
    ensures Handed(StepBoot(s))
  {
    forall r ensures FirstComesFirst(StepBoot(s).subs.Get(r)) && BoundFirst(StepBoot(s), r) {
      assert FirstComesFirst(s.subs.Get(r)) && BoundFirst(s, r);
      BootHandsRole(s, r);
    }
    BootRegistry(s, Media);
    BootBound(s);
  }

  lemma BootBound(s: State)
    ensures StepBoot(s).bound == s.bound
  {}

  lemma BootHandsRole(s: State, r: Role)
    requires Progress(s) && FirstComesFirst(s.subs.Get(r)) && BoundFirst(s, r)
    ensures FirstComesFirst(StepBoot(s).subs.Get(r)) && BoundFirst(StepBoot(s), r)
  {
    hide FirstVerdict;
    assert NotYet(s, r);
    match s.boot
    case Start(_) =>
    case Registering(_) =>
    case Sending(_) =>
    case Spawning(_) =>
    case AwaitingOK(_) =>
    case AwaitingObject(_) =>
    case _ =>
  }

  lemma FailHands(s: State)
    requires Handed(s)
    ensures Handed(FailBoot(s))
  {
    forall r ensures FirstComesFirst(FailBoot(s).subs.Get(r)) && BoundFirst(FailBoot(s), r) {
      assert FirstComesFirst(s.subs.Get(r)) && BoundFirst(s, r);
    }
  }

  lemma ReceiveHands(s: State, q: Role, m: Message)
    requires Handed(s)
    ensures Handed(Receive(s, q, m))
  {
    forall r ensures FirstComesFirst(Receive(s, q, m).subs.Get(r)) && BoundFirst(Receive(s, q, m), r) {
      assert FirstComesFirst(s.subs.Get(r)) && BoundFirst(s, r);
      FirstVerdictAppend(s.subs.Get(r).messages, m);
    }
  }

  lemma ReaderHands(s: State, q: Role)
    requires Handed(s)
    ensures Handed(StepReader(s, q))
  {
    hide StepReader, FirstComesFirst, BoundFirst;
    forall r ensures FirstComesFirst(StepReader(s, q).subs.Get(r)) && BoundFirst(StepReader(s, q), r) {
      assert FirstComesFirst(s.subs.Get(r)) && BoundFirst(s, r);
      if r == q { ReaderHandsOwn(s, q); } else { ReaderHandsOther(s, q, r); }
    }
    ReaderBound(s, q);
  }

  lemma ReaderBound(s: State, q: Role)
    requires forall b :: b in s.bound ==> b.0 in s.reg.byAlias
    ensures forall b :: b in StepReader(s, q).bound ==> b.0 in StepReader(s, q).reg.byAlias
  {}

  lemma ReaderHandsOther(s: State, q: Role, r: Role)
    requires FirstComesFirst(s.subs.Get(r)) && BoundFirst(s, r) && r != q
    ensures FirstComesFirst(StepReader(s, q).subs.Get(r)) && BoundFirst(StepReader(s, q), r)
  {
    hide FirstVerdict, FirstComesFirst;
  }

  lemma ReaderHandsOwn(s: State, q: Role)
    requires FirstComesFirst(s.subs.Get(q)) && BoundFirst(s, q)
    ensures FirstComesFirst(StepReader(s, q).subs.Get(q)) && BoundFirst(StepReader(s, q), q)
  {
    hide StepReader, FirstVerdict, FirstComesFirst;
    ReaderSubIs(s, q);
    ReaderSubKeeps(s.subs.Get(q));
  }

  /** A request reader's step, as it shows in its own subscription. */
  function ReaderSub(sub: Sub): Sub
  {
    match sub.reader
    case Binding(a) => sub.(reader := Signalling(a))
    case Signalling(a) => sub.(okCh := Offer(sub.okCh, Accepted(a)), reader := Reading)
    case Refusing => sub.(okCh := Offer(sub.okCh, Rejected), reader := Closed)
    case _ => sub
  }

  lemma ReaderSubIs(s: State, q: Role)
    ensures StepReader(s, q).subs.Get(q) == ReaderSub(s.subs.Get(q))
    ensures StepReader(s, q).bound ==
            s.bound + (if s.subs.Get(q).reader.Binding? then {(s.subs.Get(q).reader.alias, q)} else {})
  {}

  lemma ReaderSubKeeps(sub: Sub)
    requires FirstComesFirst(sub)
    ensures FirstComesFirst(ReaderSub(sub))
  {
    hide FirstVerdict;
  }

  lemma CloseHands(s: State, q: Role)
    requires Handed(s)
    ensures Handed(Next(s, ReqClose(q)))
  {
    forall r ensures FirstComesFirst(Next(s, ReqClose(q)).subs.Get(r)) && BoundFirst(Next(s, ReqClose(q)), r) {
      assert FirstComesFirst(s.subs.Get(r)) && BoundFirst(s, r);
    }
  }

  lemma StreamHands(s: State, i: nat)
    requires Handed(s) && i < |s.streams|
    ensures Handed(StepStream(s, i))
  {
    hide FirstVerdict, Lookup;
    StreamBound(s, i);
    forall r ensures FirstComesFirst(StepStream(s, i).subs.Get(r)) && BoundFirst(StepStream(s, i), r) {
      assert FirstComesFirst(s.subs.Get(r)) && BoundFirst(s, r);
      OfferHands(s, i, r);
    }
  }

  lemma StreamBound(s: State, i: nat)
    requires i < |s.streams|
    ensures StepStream(s, i).bound == s.bound && StepStream(s, i).reg == s.reg
  {}

  /** What a subgroup reader's step does to a subscription: nothing, or it sets
      gotFirst, or it offers a payload. */
  lemma OfferHands(s: State, i: nat, r: Role)
    requires i < |s.streams|
    ensures var sub, sub' := s.subs.Get(r), StepStream(s, i).subs.Get(r);
            || sub' == sub
            || sub' == sub.(gotFirst := true)
            || (s.streams[i].pc.Offering? && s.streams[i].sub == Some(r) &&
                var p := s.streams[i].pc.payload;
                sub' == sub.(firstCh := Offer(sub.firstCh, p), offers := sub.offers + [p]))
  {}

  lemma OtherHands(s: State, s': State)
    requires Handed(s) && s'.subs == s.subs && s'.bound == s.bound && s'.reg == s.reg
    ensures Handed(s')
  {
    forall r ensures FirstComesFirst(s'.subs.Get(r)) && BoundFirst(s', r) {
      assert FirstComesFirst(s.subs.Get(r)) && BoundFirst(s, r);
    }
  }

  lemma StepHands(s: State, a: Action)
    requires Progress(s) && Handed(s)
    ensures Handed(Next(s, a))
  {
    hide Progress, Handed, StepBoot, FailBoot, Receive, StepReader, StepStream;
    match a
    case BootStep => BootHands(s);
    case BootFail => FailHands(s);
    case ReqRecv(r, m) => ReceiveHands(s, r, m);
    case ReqStep(r) => ReaderHands(s, r);
    case ReqClose(r) => CloseHands(s, r);
    case StreamStep(i) => if i < |s.streams| { StreamHands(s, i); }
    case _ => OtherHands(s, Next(s, a));
  }

  // ---------- provenance is kept ----------

  /** Streams only gain, keep their role once they have read, and stay genuine. */
  predicate Grows(t: Stream, t': Stream)
  {
    && FromRead(t') && SinkOrder.Local(t')
    && (t.read != [] ==> t'.sub == t.sub)
    && (forall o :: o in t.read ==> o in t'.read)
  }

  lemma GenuineStep(s: State, s': State)
    requires Genuine(s)
    requires |s.streams| <= |s'.streams|
    requires forall i :: 0 <= i < |s.streams| ==> Grows(s.streams[i], s'.streams[i])
    requires forall i :: |s.streams| <= i < |s'.streams| ==> FromRead(s'.streams[i]) && SinkOrder.Local(s'.streams[i])
    requires forall r :: var offers, offers' := s.subs.Get(r).offers, s'.subs.Get(r).offers;
               offers' == offers || (offers' != [] && offers' == offers + [offers'[|offers'| - 1]]
                                     && ReadBySome(s.streams, r, offers'[|offers'| - 1]))
    ensures Genuine(s')
  {
    forall r, k | 0 <= k < |s'.subs.Get(r).offers| ensures ReadBySome(s'.streams, r, s'.subs.Get(r).offers[k]) {
      var offers, p := s.subs.Get(r).offers, s'.subs.Get(r).offers[k];
      if k < |offers| { assert p == offers[k]; }
      assert ReadBySome(s.streams, r, p);
      var i, o :| 0 <= i < |s.streams| && s.streams[i].sub == Some(r) && o in s.streams[i].read && o.body == Data(p);
      assert Grows(s.streams[i], s'.streams[i]);
      assert s'.streams[i].sub == Some(r) && o in s'.streams[i].read && o.body == Data(p);
    }
  }

  /** A subgroup reader's own step. */
  lemma StreamGrows(s: State, i: nat)
    requires i < |s.streams| && FromRead(s.streams[i]) && SinkOrder.Local(s.streams[i])
    ensures |StepStream(s, i).streams| == |s.streams|
    ensures forall j :: 0 <= j < |s.streams| && j != i ==> StepStream(s, i).streams[j] == s.streams[j]
    ensures Grows(s.streams[i], StepStream(s, i).streams[i])
  {
    var t := s.streams[i];
    if t.pc.Dispatching? && t.pc.o.body.Data? { assert t.pc.o in t.read && t.pc.o.body == Data(t.pc.o.body.payload); }
  }

  lemma StreamGenuine(s: State, i: nat)
    requires Genuine(s) && i < |s.streams|
    ensures Genuine(StepStream(s, i))
  {
    hide StepStream, FromRead, SinkOrder.Local, ReadBySome;
    StreamGrows(s, i);
    var s' := StepStream(s, i);
    forall j | 0 <= j < |s.streams| ensures Grows(s.streams[j], s'.streams[j]) {
      if j != i { SameGrows(s.streams[j]); }
    }
    forall r ensures var offers, offers' := s.subs.Get(r).offers, s'.subs.Get(r).offers;
                     offers' == offers || (offers' != [] && offers' == offers + [offers'[|offers'| - 1]]
                                           && ReadBySome(s.streams, r, offers'[|offers'| - 1])) {
      OfferHands(s, i, r);
      if s.streams[i].pc.Offering? && s.streams[i].sub == Some(r) { OfferedWasRead(s, i, r); }
    }
    GenuineStep(s, s');
  }

  lemma SameGrows(t: Stream)
    requires FromRead(t) && SinkOrder.Local(t)
    ensures Grows(t, t)
  {}

  lemma OfferedWasRead(s: State, i: nat, r: Role)
    requires i < |s.streams| && s.streams[i].pc.Offering? && s.streams[i].sub == Some(r) && FromRead(s.streams[i])
    ensures ReadBySome(s.streams, r, s.streams[i].pc.payload)
  {
    var o :| o in s.streams[i].read && o.body == Data(s.streams[i].pc.payload);
  }

  /** Steps of the other goroutines offer nothing. */
  lemma SameOffers(s: State, a: Action)
    requires !a.StreamStep?
    ensures forall r :: Next(s, a).subs.Get(r).offers == s.subs.Get(r).offers
  {
    hide StepBoot, FailBoot, Receive, StepReader;
    match a
    case BootStep => BootOffers(s);
    case BootFail => BootOffers(s);
    case ReqRecv(q, m) => ReaderOffers(s, q, m);
    case ReqStep(q) => ReaderOffers(s, q, Other);
    case _ =>
  }

  lemma BootOffers(s: State)
    ensures forall r :: StepBoot(s).subs.Get(r).offers == FailBoot(s).subs.Get(r).offers == s.subs.Get(r).offers
  {}

  lemma ReaderOffers(s: State, q: Role, m: Message)
    ensures forall r ::
              Receive(s, q, m).subs.Get(r).offers == StepReader(s, q).subs.Get(r).offers == s.subs.Get(r).offers
  {}

  lemma StreamsOf(s: State, a: Action)
    requires Genuine(s) && !a.StreamStep?
    ensures |s.streams| <= |Next(s, a).streams|
    ensures forall i :: 0 <= i < |s.streams| ==> Grows(s.streams[i], Next(s, a).streams[i])
    ensures forall i :: |s.streams| <= i < |Next(s, a).streams| ==>
              FromRead(Next(s, a).streams[i]) && SinkOrder.Local(Next(s, a).streams[i])
  {
    hide StepBoot, StepReader, Receive, FailBoot, ReadBySome;
    BootLeavesStreams(s);
    match a
    case ReqRecv(r, m) => ReaderLeavesStreams(s, r, m);
    case ReqStep(r) => ReaderLeavesStreams(s, r, Other);
    case _ =>
  }

  lemma StepGenuine(s: State, a: Action)
    requires Genuine(s)
    ensures Genuine(Next(s, a))
  {
    hide Next, Genuine;
    if a.StreamStep? {
      StreamStepGenuine(s, a.i);
    } else {
      SameOffers(s, a);
      StreamsOf(s, a);
      GenuineStep(s, Next(s, a));
    }
  }

  lemma StreamStepGenuine(s: State, i: nat)
    requires Genuine(s)
    ensures Genuine(Next(s, StreamStep(i)))
  {
    hide Genuine;
    if i < |s.streams| { StreamGenuine(s, i); }
  }

  // ---------- every run ----------

  lemma {:induction false} AlwaysHanded(run: seq<Action>)
    ensures Progress(Exec(run)) && Handed(Exec(run)) && Genuine(Exec(run))
  {
    hide Next, Progress, Handed, Genuine;
    if run == [] {
      InitiallyHanded();
    } else {
      var s := Exec(run[..|run| - 1]);
      AlwaysHanded(run[..|run| - 1]);
      ProgressStep(s, run[|run| - 1]);
      StepHands(s, run[|run| - 1]);
      StepGenuine(s, run[|run| - 1]);
    }
  }

  lemma InitiallyHanded()
    ensures Progress(INITIAL) && Handed(INITIAL) && Genuine(INITIAL)
  {
    forall r ensures FirstComesFirst(INITIAL.subs.Get(r)) && BoundFirst(INITIAL, r) {}
  }

  /** A verdict that waitSubscribeOK has received is the first SUBSCRIBE_OK or
      REQUEST_ERROR on that request stream, and an accepted alias had been
      bound to that subscription. */
  lemma VerdictIsFirst(run: seq<Action>, r: Role)
    requires Exec(run).subs.Get(r).verdict != None
    ensures var s := Exec(run); var sub := s.subs.Get(r);
            && FirstVerdict(sub.messages) == sub.verdict
            && (sub.verdict.value.Accepted? ==>
                  (sub.verdict.value.alias, r) in s.bound && sub.verdict.value.alias in s.reg.byAlias)
  {
    hide FirstVerdict;
    AlwaysHanded(run);
    assert FirstComesFirst(Exec(run).subs.Get(r)) && BoundFirst(Exec(run), r);
  }

  /** An object that waitFirstObject has received is the first payload that any
      reader offered, and some stream of that subscription has read it. */
  lemma FirstObjectIsFirst(run: seq<Action>, r: Role)
    requires Exec(run).subs.Get(r).first != None
    ensures var s := Exec(run); var sub := s.subs.Get(r);
            sub.offers != [] && sub.first == Some(sub.offers[0]) && ReadBySome(s.streams, r, sub.offers[0])
  {
    AlwaysHanded(run);
    assert FirstComesFirst(Exec(run).subs.Get(r));
  }

  /** Nothing first is ever lost. Once the relay's first response has been read
      it has been received, or else it is in the channel, or else its reader is
      about to put it there; and the first payload offered has been received or
      is in the channel. */
  lemma FirstIsNeverLost(run: seq<Action>, r: Role)
    ensures var sub := Exec(run).subs.Get(r); var v := FirstVerdict(sub.messages);
            && (v != None ==>
                  || sub.verdict == v
                  || (sub.verdict == None && sub.okCh == v)
                  || (sub.verdict == None && sub.okCh == None && Pending(sub.reader) == v))
            && (sub.offers != [] ==>
                  || sub.first == Some(sub.offers[0])
                  || (sub.first == None && sub.firstCh == Some(sub.offers[0])))
  {
    hide FirstVerdict;
    AlwaysHanded(run);
    assert FirstComesFirst(Exec(run).subs.Get(r));
  }

  // ---------- nobody waits for anybody ----------

  /** Steps of its own that a stream reader is away from its next read or its end. */
  function Work(pc: StreamPc): nat
  {
    match pc
    case Opened => 2
    case Headed => 1
    case Got(_) => 5
    case Hinting(_) => 4
    case Dispatching(_) => 3
    case Marking(_) => 2
    case Offering(_) => 1
    case Adding(_) => 1
    case _ => 0
  }

  /** The same for the reader of a request stream. */
  function ReaderWork(pc: ReaderPc): nat
  {
    match pc
    case Binding(_) => 2
    case Signalling(_) => 1
    case Refusing => 1
    case _ => 0
  }

  lemma WorkShrinks(s: State, a: Action, i: nat)
    requires Genuine(s) && i < |s.streams|
    ensures i < |Next(s, a).streams|
    ensures Work(Next(s, a).streams[i].pc) <= Work(s.streams[i].pc) || Work(s.streams[i].pc) == 0
    ensures a == StreamStep(i) && Work(s.streams[i].pc) > 0 ==> Work(Next(s, a).streams[i].pc) < Work(s.streams[i].pc)
  {
    hide StepBoot, FailBoot, Receive, StepReader, StepStream, Work;
    assert SinkOrder.Local(s.streams[i]);
    match a
    case BootStep => BootLeavesStreams(s);
    case BootFail => BootLeavesStreams(s);
    case ReqRecv(r, m) => ReaderLeavesStreams(s, r, m);
    case ReqStep(r) => ReaderLeavesStreams(s, r, Other);
    case StreamStep(j) => if j < |s.streams| { StepWorks(s, j, i); }
    case _ => OtherWorks(s, a, i);
  }

  lemma StepWorks(s: State, j: nat, i: nat)
    requires j < |s.streams| && i < |s.streams| && SinkOrder.Local(s.streams[i])
    ensures |StepStream(s, j).streams| == |s.streams|
    ensures j != i ==> StepStream(s, j).streams[i] == s.streams[i]
    ensures Work(s.streams[i].pc) > 0 ==> Work(StepStream(s, i).streams[i].pc) < Work(s.streams[i].pc)
    ensures Work(s.streams[i].pc) == 0 ==> StepStream(s, i).streams[i] == s.streams[i]
  {}

  lemma OtherWorks(s: State, a: Action, i: nat)
    requires i < |s.streams| && (a.ReqClose? || a.Open? || a.Read? || a.End? || a.BreakWrite?)
    ensures i < |Next(s, a).streams|
    ensures Work(Next(s, a).streams[i].pc) <= Work(s.streams[i].pc) || Work(s.streams[i].pc) == 0
  {}

  /** How often an action occurs in a run. */
  function Count(run: seq<Action>, a: Action): nat
  {
    if run == [] then 0 else (if run[0] == a then 1 else 0) + Count(run[1..], a)
  }

  /** After run + more, or before, reader i is at its next read or has ended. */
  ghost predicate GetsThrough(run: seq<Action>, more: seq<Action>, i: nat)
  {
    exists n :: 0 <= n <= |more| && i < |Exec(run + more[..n]).streams|
                && Work(Exec(run + more[..n]).streams[i].pc) == 0
  }

  /** No sender blocks. Whatever the others do in between, a stream reader that
      takes as many steps as it is away from its next read gets there: at most
      five, a full channel and a lost race for gotFirst included. */
  lemma {:induction false} NoSenderBlocks(run: seq<Action>, more: seq<Action>, i: nat)
    requires i < |Exec(run).streams| && Count(more, StreamStep(i)) >= Work(Exec(run).streams[i].pc)
    ensures GetsThrough(run, more, i)
    decreases |more|
  {
    hide Exec, Work, Next, Genuine, Handed, Progress;
    if Work(Exec(run).streams[i].pc) == 0 {
      assert run + more[..0] == run;
    } else {
      var a := more[0];
      AlwaysHanded(run);
      ExecMore(run, a);
      WorkShrinks(Exec(run), a, i);
      NoSenderBlocks(run + [a], more[1..], i);
      var n :| 0 <= n <= |more[1..]| && i < |Exec(run + [a] + more[1..][..n]).streams|
               && Work(Exec(run + [a] + more[1..][..n]).streams[i].pc) == 0;
      assert run + [a] + more[1..][..n] == run + more[..n + 1];
    }
  }

  /** After run + more, or before, the request reader of r is at its next read
      or has ended. */
  ghost predicate Answers(run: seq<Action>, more: seq<Action>, r: Role)
  {
    exists n :: 0 <= n <= |more| && ReaderWork(Exec(run + more[..n]).subs.Get(r).reader) == 0
  }

  lemma ReaderWorkShrinks(s: State, a: Action, r: Role)
    requires ReaderWork(s.subs.Get(r).reader) > 0
    ensures ReaderWork(Next(s, a).subs.Get(r).reader) <= ReaderWork(s.subs.Get(r).reader)
    ensures a == ReqStep(r) ==> ReaderWork(Next(s, a).subs.Get(r).reader) < ReaderWork(s.subs.Get(r).reader)
  {
    hide StepBoot, FailBoot, StepStream;
    match a
    case BootStep => BootReader(s, r);
    case BootFail => BootReader(s, r);
    case StreamStep(i) => if i < |s.streams| { StreamReader(s, i, r); }
    case _ =>
  }

  lemma BootReader(s: State, r: Role)
    ensures FailBoot(s).subs == s.subs
    ensures StepBoot(s).subs.Get(r).reader == s.subs.Get(r).reader || StepBoot(s).subs.Get(r).reader == Reading
  {}

  lemma StreamReader(s: State, i: nat, r: Role)
    requires i < |s.streams|
    ensures StepStream(s, i).subs.Get(r).reader == s.subs.Get(r).reader
  {}

  /** A request reader is through with a response after at most two steps of its
      own, whatever the others do and whether or not anybody receives. */
  lemma {:induction false} NoVerdictBlocks(run: seq<Action>, more: seq<Action>, r: Role)
    requires Count(more, ReqStep(r)) >= ReaderWork(Exec(run).subs.Get(r).reader)
    ensures Answers(run, more, r)
    decreases |more|
  {
    hide Exec, ReaderWork, Next;
    if ReaderWork(Exec(run).subs.Get(r).reader) == 0 {
      assert run + more[..0] == run;
    } else {
      var a := more[0];
      ExecMore(run, a);
      ReaderWorkShrinks(Exec(run), a, r);
      NoVerdictBlocks(run + [a], more[1..], r);
      var n :| 0 <= n <= |more[1..]| && ReaderWork(Exec(run + [a] + more[1..][..n]).subs.Get(r).reader) == 0;
      assert run + [a] + more[1..][..n] == run + more[..n + 1];
    }
  }
}
