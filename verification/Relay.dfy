// A relay that keeps the rules of the interop profile: it opens subgroup
// streams only for subscriptions that have been sent, and its track alias is
// the request ID. SUBSCRIBE_OK and data may still arrive in any order.
module Relay {
  import opened Bytes
  import opened Registry
  import opened Session
  import opened Invariants
  import SinkOrder

  predicate Cooperates(s: State, a: Action)
  {
    match a
    case Open(alias) => SentFor(s, alias) != None
    case ReqRecv(r, SubscribeOK(alias)) => s.subs.Get(r).id == Some(alias)
    case _ => true
  }

  /** The subscription that was sent with this request ID. */
  function SentFor(s: State, id: uint64): Option<Role>
  {
    if s.subs.catalog.sent && s.subs.catalog.id == Some(id) then Some(Catalog)
    else if s.subs.init.sent && s.subs.init.id == Some(id) then Some(Init)
    else if s.subs.media.sent && s.subs.media.id == Some(id) then Some(Media)
    else None
  }

  predicate Cooperative(run: seq<Action>)
  {
    run != [] ==> Cooperative(run[..|run| - 1]) && Cooperates(Exec(run[..|run| - 1]), run[|run| - 1])
  }

  // ---------- the invariant ----------

  function OwnID(r: Role): uint64
  {
    match r case Catalog => 0 case Init => 2 case Media => 4
  }

  function Owner(id: uint64): Option<Role>
  {
    if id == 0 then Some(Catalog) else if id == 2 then Some(Init) else if id == 4 then Some(Media) else None
  }

  /** Request IDs are handed out in the order of the bootstrap. */
  predicate IDsInOrder(s: State)
  {
    var c, i, m := s.subs.catalog.id, s.subs.init.id, s.subs.media.id;
    && (c == None || c == Some(0)) && (i == None || i == Some(2)) && (m == None || m == Some(4))
    && (c == None ==> i == None) && (i == None ==> m == None)
    && s.reg.nextID == (if c == None then 0 else if i == None then 2 else if m == None then 4 else 6)
  }

  /** Both maps answer an ID with its owner or not at all. */
  predicate Honest(reg: Reg<Role>)
  {
    && (forall a :: a in reg.byRequest ==> Owner(a) == Some(reg.byRequest[a]))
    && (forall a :: a in reg.byAlias ==> Owner(a) == Some(reg.byAlias[a]))
  }

  predicate SentIsRegistered(s: State, r: Role)
  {
    && (s.subs.Get(r).sent || s.boot == Sending(r) ==> OwnID(r) in s.reg.byRequest)
    && (s.subs.Get(r).sent ==> s.subs.Get(r).id != None)
    && (s.boot == Registering(r) || s.boot == Sending(r) ==> s.subs.Get(r).id != None)
    && (s.subs.Get(r).reader.Binding? ==> s.subs.Get(r).reader.alias == OwnID(r))
  }

  predicate WellRouted(s: State, t: Stream)
  {
    && Owner(t.alias) != None && s.subs.Get(Owner(t.alias).value).sent
    && (!t.pc.Opened? && !t.pc.Headed? ==> t.sub == Owner(t.alias))
  }

  ghost predicate Routed(s: State)
  {
    && IDsInOrder(s) && Honest(s.reg)
    && (forall r :: SentIsRegistered(s, r))
    && (forall i :: 0 <= i < |s.streams| ==> WellRouted(s, s.streams[i]))
  }

  // ---------- steps ----------

  /** The lookup of a sent subscription's ID finds it, bound or not. */
  lemma LookupFinds(s: State, r: Role)
    requires Routed(s) && s.subs.Get(r).sent
    ensures Lookup(s.reg, OwnID(r)) == Some(r)
  {
    assert SentIsRegistered(s, r);
  }

  lemma BootRoutes(s: State)
    requires Progress(s) && Routed(s)
    ensures Routed(StepBoot(s))
  {
    hide StepBoot, SentIsRegistered, IDsInOrder, Honest;
    BootLeavesStreams(s);
    SentStays(s);
    BootIDs(s);
    BootHonest(s);
    forall r ensures SentIsRegistered(StepBoot(s), r) {
      assert SentIsRegistered(s, r);
      BootSent(s, r);
    }
  }

  lemma SentStays(s: State)
    ensures forall r :: s.subs.Get(r).sent ==> StepBoot(s).subs.Get(r).sent
  {}

  lemma BootIDs(s: State)
    requires Progress(s) && IDsInOrder(s)
    ensures IDsInOrder(StepBoot(s))
  {
    assert NotYet(s, Catalog) && NotYet(s, Init) && NotYet(s, Media);
    if s.boot.Start? { StartIDs(s); }
  }

  lemma StartIDs(s: State)
    requires Progress(s) && IDsInOrder(s) && s.boot.Start?
    ensures IDsInOrder(StepBoot(s))
  {
    assert NotYet(s, Catalog) && NotYet(s, Init) && NotYet(s, Media);
  }

  lemma BootHonest(s: State)
    requires IDsInOrder(s) && Honest(s.reg)
    ensures Honest(StepBoot(s).reg)
  {}

  lemma BootSent(s: State, r: Role)
    requires Progress(s) && IDsInOrder(s) && SentIsRegistered(s, r)
    ensures SentIsRegistered(StepBoot(s), r)
  {
    hide StepBoot, Progress, SentIsRegistered;
    if OwnStep(s.boot, r) {
      BootSentOwn(s, r);
    } else {
      BootSentOther(s, r);
    }
  }

  lemma BootSentOther(s: State, r: Role)
    requires SentIsRegistered(s, r) && !OwnStep(s.boot, r)
    ensures SentIsRegistered(StepBoot(s), r)
  {
    hide Lookup, OwnID;
    BootLeaves(s, r);
  }

  /** Other roles' subscriptions stay, registrations stay, and the bootstrap
      does not come to register or send for r from elsewhere. */
  lemma BootLeaves(s: State, r: Role)
    requires !OwnStep(s.boot, r)
    ensures StepBoot(s).subs.Get(r) == s.subs.Get(r)
    ensures StepBoot(s).boot != Registering(r) && StepBoot(s).boot != Sending(r)
    ensures forall a :: a in s.reg.byRequest ==> a in StepBoot(s).reg.byRequest
  {
    match s.boot
    case Start(_) =>
    case Registering(_) =>
    case Sending(_) =>
    case Spawning(_) =>
    case AwaitingOK(_) =>
    case AwaitingObject(_) =>
    case _ =>
  }

  lemma BootSentOwn(s: State, r: Role)
    requires Progress(s) && IDsInOrder(s) && SentIsRegistered(s, r) && OwnStep(s.boot, r)
    ensures SentIsRegistered(StepBoot(s), r)
  {
    assert NotYet(s, r);
    IDIsOwn(s, r);
    match s.boot
    case Start(_) =>
    case Registering(_) =>
    case Sending(_) =>
    case Spawning(_) =>
    case AwaitingOK(_) =>
    case AwaitingObject(_) =>
  }

  lemma IDIsOwn(s: State, r: Role)
    requires IDsInOrder(s)
    ensures s.subs.Get(r).id != None ==> s.subs.Get(r).id == Some(OwnID(r))
  {}

  lemma FailRoutes(s: State)
    requires Routed(s)
    ensures Routed(FailBoot(s))
  {
    forall r ensures SentIsRegistered(FailBoot(s), r) { assert SentIsRegistered(s, r); }
  }

  lemma ReceiveRoutes(s: State, q: Role, m: Message)
    requires Routed(s) && Cooperates(s, ReqRecv(q, m))
    ensures Routed(Receive(s, q, m))
  {
    hide Honest;
    forall r ensures SentIsRegistered(Receive(s, q, m), r) { assert SentIsRegistered(s, r); }
  }

  lemma ReaderRoutes(s: State, q: Role)
    requires Routed(s)
    ensures Routed(StepReader(s, q))
  {
    hide StepReader, SentIsRegistered, IDsInOrder, Honest;
    assert SentIsRegistered(s, q);
    ReaderShape(s, q);
    ReaderHonest(s, q);
    forall r ensures SentIsRegistered(StepReader(s, q), r) {
      assert SentIsRegistered(s, r);
      ReaderSent(s, q, r);
    }
    ReaderIDs(s, q);
  }

  lemma ReaderShape(s: State, q: Role)
    ensures var s' := StepReader(s, q);
            && s'.boot == s.boot && s'.streams == s.streams
            && s'.reg.byRequest == s.reg.byRequest && s'.reg.nextID == s.reg.nextID
            && (forall r :: s'.subs.Get(r).sent == s.subs.Get(r).sent && s'.subs.Get(r).id == s.subs.Get(r).id)
            && (forall r :: s'.subs.Get(r).reader.Binding? ==> s'.subs.Get(r).reader == s.subs.Get(r).reader)
  {}

  lemma ReaderHonest(s: State, q: Role)
    requires Honest(s.reg) && SentIsRegistered(s, q)
    ensures Honest(StepReader(s, q).reg)
  {}

  lemma ReaderSent(s: State, q: Role, r: Role)
    requires SentIsRegistered(s, r)
    ensures SentIsRegistered(StepReader(s, q), r)
  {
    hide StepReader;
    ReaderShape(s, q);
  }

  lemma ReaderIDs(s: State, q: Role)
    requires IDsInOrder(s)
    ensures IDsInOrder(StepReader(s, q))
  {
    hide StepReader;
    ReaderShape(s, q);
    var s' := StepReader(s, q);
    assert s'.subs.Get(Catalog).id == s.subs.Get(Catalog).id;
    assert s'.subs.Get(Init).id == s.subs.Get(Init).id;
    assert s'.subs.Get(Media).id == s.subs.Get(Media).id;
  }

  lemma CloseRoutes(s: State, q: Role)
    requires Routed(s)
    ensures Routed(Next(s, ReqClose(q)))
  {
    hide Honest;
    forall r ensures SentIsRegistered(Next(s, ReqClose(q)), r) { assert SentIsRegistered(s, r); }
  }

  lemma StreamRoutes(s: State, i: nat)
    requires Routed(s) && i < |s.streams|
    ensures Routed(StepStream(s, i))
  {
    hide StepStream, Honest, SentIsRegistered, IDsInOrder;
    StreamShape(s, i);
    var t, s' := s.streams[i], StepStream(s, i);
    if t.pc.Headed? { LookupFinds(s, Owner(t.alias).value); OwnerID(t.alias); }
    forall r ensures SentIsRegistered(s', r) { assert SentIsRegistered(s, r); SameSent(s, s', r); }
    SameIDs(s, s');
  }

  lemma OwnerID(id: uint64)
    requires Owner(id) != None
    ensures OwnID(Owner(id).value) == id
  {}

  lemma StreamShape(s: State, i: nat)
    requires i < |s.streams|
    ensures var t, s' := s.streams[i], StepStream(s, i);
            && |s'.streams| == |s.streams| && s'.streams == s.streams[i := s'.streams[i]]
            && s'.boot == s.boot && s'.reg == s.reg
            && (forall r :: SameHandshake(s.subs.Get(r), s'.subs.Get(r)))
            && s'.streams[i].alias == t.alias
            && (t.pc.Headed? ==> s'.streams[i].sub == Lookup(s.reg, t.alias))
            && (!t.pc.Headed? ==> s'.streams[i].sub == t.sub)
            && (t.pc.Opened? ==> s'.streams[i].pc.Headed?)
  {
    hide StepStream, SameHandshake, Lookup;
    forall r ensures SameHandshake(s.subs.Get(r), StepStream(s, i).subs.Get(r)) { StreamKeeps(s, i, r); }
    StreamKeeps(s, i, Catalog);
    StreamMoves(s, i);
  }

  lemma StreamMoves(s: State, i: nat)
    requires i < |s.streams|
    ensures var t, s' := s.streams[i], StepStream(s, i);
            && |s'.streams| == |s.streams| && s'.streams == s.streams[i := s'.streams[i]]
            && s'.streams[i].alias == t.alias
            && (t.pc.Headed? ==> s'.streams[i].sub == Lookup(s.reg, t.alias))
            && (!t.pc.Headed? ==> s'.streams[i].sub == t.sub)
            && (t.pc.Opened? ==> s'.streams[i].pc.Headed?)
  {}

  lemma SameSent(s: State, s': State, r: Role)
    requires SentIsRegistered(s, r) && s'.boot == s.boot && s'.reg == s.reg
    requires SameHandshake(s.subs.Get(r), s'.subs.Get(r))
    ensures SentIsRegistered(s', r)
  {}

  lemma SameIDs(s: State, s': State)
    requires IDsInOrder(s) && s'.reg == s.reg && forall r :: SameHandshake(s.subs.Get(r), s'.subs.Get(r))
    ensures IDsInOrder(s')
  {
    assert SameHandshake(s.subs.Get(Catalog), s'.subs.Get(Catalog));
    assert SameHandshake(s.subs.Get(Init), s'.subs.Get(Init));
    assert SameHandshake(s.subs.Get(Media), s'.subs.Get(Media));
  }

  lemma OpenRoutes(s: State, alias: uint64)
    requires Routed(s) && Cooperates(s, Open(alias))
    ensures Routed(Next(s, Open(alias)))
  {
    hide Honest;
    forall r ensures SentIsRegistered(Next(s, Open(alias)), r) { assert SentIsRegistered(s, r); }
  }

  lemma MoveRoutes(s: State, a: Action)
    requires Routed(s) && (a.Read? || a.End? || a.BreakWrite?)
    ensures Routed(Next(s, a))
  {
    hide Honest;
    forall r ensures SentIsRegistered(Next(s, a), r) { assert SentIsRegistered(s, r); }
  }

  lemma StepRoutes(s: State, a: Action)
    requires Progress(s) && Routed(s) && Cooperates(s, a)
    ensures Routed(Next(s, a))
  {
    hide Progress, Routed, StepBoot, FailBoot, Receive, StepReader, StepStream;
    match a
    case BootStep => BootRoutes(s);
    case BootFail => FailRoutes(s);
    case ReqRecv(r, m) => ReceiveRoutes(s, r, m);
    case ReqStep(r) => ReaderRoutes(s, r);
    case ReqClose(r) => CloseRoutes(s, r);
    case Open(alias) => OpenRoutes(s, alias);
    case StreamStep(i) => if i < |s.streams| { StreamRoutes(s, i); }
    case _ => MoveRoutes(s, a);
  }

  // ---------- every cooperative run ----------

  lemma {:induction false} AlwaysRouted(run: seq<Action>)
    requires Cooperative(run)
    ensures Progress(Exec(run)) && Routed(Exec(run))
  {
    hide Next, Progress, Routed, Cooperates;
    if run == [] {
      InitiallyRouted();
    } else {
      var s := Exec(run[..|run| - 1]);
      AlwaysRouted(run[..|run| - 1]);
      ProgressStep(s, run[|run| - 1]);
      StepRoutes(s, run[|run| - 1]);
    }
  }

  lemma InitiallyRouted()
    ensures Progress(INITIAL) && Routed(INITIAL)
  {
    forall r ensures SentIsRegistered(INITIAL, r) {}
  }

  /** Every stream is mapped at its lookup, and to the subscription whose
      request ID is its alias, whether or not SUBSCRIBE_OK has been processed. */
  lemma RoutedByRequestID(run: seq<Action>, i: nat)
    requires Cooperative(run) && i < |Exec(run).streams|
    ensures var s := Exec(run); var t := s.streams[i];
            !t.pc.Opened? && !t.pc.Headed? ==> t.sub != None && s.subs.Get(t.sub.value).id == Some(t.alias)
  {
    hide Exec;
    AlwaysRouted(run);
    StateRoutes(Exec(run), i);
  }

  lemma StateRoutes(s: State, i: nat)
    requires Routed(s) && i < |s.streams|
    ensures var t := s.streams[i];
            !t.pc.Opened? && !t.pc.Headed? ==> t.sub != None && s.subs.Get(t.sub.value).id == Some(t.alias)
  {
    var t := s.streams[i];
    assert WellRouted(s, t);
    assert SentIsRegistered(s, Owner(t.alias).value);
  }

  /** Every stream that carries the media subscription's ID has put into the
      sink, once and in wire order, all payloads it has read but the one in
      flight. */
  lemma MediaDelivered(run: seq<Action>, i: nat)
    requires Cooperative(run) && i < |Exec(run).streams|
    requires Exec(run).subs.media.id == Some(Exec(run).streams[i].alias)
    ensures var s := Exec(run); var t := s.streams[i];
            SinkOrder.Payloads(t.read) == SinkOrder.Written(s.log, i) + SinkOrder.InFlight(t.pc)
  {
    hide Exec, SinkOrder.Payloads, SinkOrder.Written;
    AlwaysRouted(run);
    SinkOrder.AlwaysOrdered(run);
    StateDelivers(Exec(run), i);
  }

  lemma StateDelivers(s: State, i: nat)
    requires Routed(s) && SinkOrder.Streams(s) && i < |s.streams| && s.subs.media.id == Some(s.streams[i].alias)
    ensures SinkOrder.Payloads(s.streams[i].read) == SinkOrder.Written(s.log, i) + SinkOrder.InFlight(s.streams[i].pc)
  {
    var t := s.streams[i];
    assert WellRouted(s, t) && SinkOrder.Local(t) && SinkOrder.Complete(s.log, i, t);
  }

  // ---------- any relay ----------

  predicate IsMapped(t: Stream)
  {
    !t.pc.Opened? && !t.pc.Headed?
  }

  /** A stream is mapped once: after its lookup nothing that anybody does later
      changes the answer, bound aliases included. */
  lemma {:induction false} MappingIsFixed(run: seq<Action>, more: seq<Action>, i: nat)
    requires i < |Exec(run).streams| && IsMapped(Exec(run).streams[i])
    ensures var s, s' := Exec(run), Exec(run + more);
            i < |s'.streams| && s'.streams[i].sub == s.streams[i].sub && IsMapped(s'.streams[i])
    decreases |more|
  {
    hide Exec, Next, IsMapped;
    if more == [] {
      assert run + more == run;
    } else {
      var n := |more| - 1;
      MappingIsFixed(run, more[..n], i);
      MappingStep(Exec(run + more[..n]), more[n], i);
      ExecMore(run + more[..n], more[n]);
      assert run + more[..n] + [more[n]] == run + more;
    }
  }

  lemma MappingStep(s: State, a: Action, i: nat)
    requires i < |s.streams| && IsMapped(s.streams[i])
    ensures i < |Next(s, a).streams| && Next(s, a).streams[i].sub == s.streams[i].sub
    ensures IsMapped(Next(s, a).streams[i])
  {
    hide StepBoot, FailBoot, Receive, StepReader, StepStream;
    match a
    case BootStep => BootLeavesStreams(s);
    case BootFail => BootLeavesStreams(s);
    case ReqRecv(r, m) => ReaderLeavesStreams(s, r, m);
    case ReqStep(r) => ReaderLeavesStreams(s, r, Other);
    case StreamStep(j) => if j < |s.streams| { StreamShape(s, j); if j == i { PcMoves(s, j); } }
    case _ =>
  }

  lemma PcMoves(s: State, j: nat)
    requires j < |s.streams| && !s.streams[j].pc.Opened? && !s.streams[j].pc.Headed?
    ensures |StepStream(s, j).streams| == |s.streams|
    ensures !StepStream(s, j).streams[j].pc.Opened? && !StepStream(s, j).streams[j].pc.Headed?
  {}
}
