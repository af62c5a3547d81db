// Runs of the whole session. Data may overtake SUBSCRIBE_OK: whatever the
// payloads are, a cooperative relay can have all of them written to the sink
// before it answers the media SUBSCRIBE, and the bootstrap still completes. A
// relay that does not cooperate can turn streams over to another subscription.
module EarlyData {
  import opened Bytes
  import opened Registry
  import opened Session
  import opened Invariants
  import opened Relay
  import Delivery
  import Output
  import SinkOrder

  lemma Push(run: seq<Action>, a: Action)
    requires Cooperative(run) && Cooperates(Exec(run), a)
    ensures Cooperative(run + [a]) && Exec(run + [a]) == Next(Exec(run), a)
  {
    hide Next, Cooperates;
    ExecMore(run, a);
    assert (run + [a])[..|run|] == run;
  }

  /** One more step of a run. */
  lemma Then(run: seq<Action>, a: Action) returns (run': seq<Action>)
    requires Cooperative(run) && Cooperates(Exec(run), a)
    ensures Cooperative(run') && Exec(run') == Next(Exec(run), a) && run' == run + [a]
  {
    hide *;
    Push(run, a);
    run' := run + [a];
  }

  /** Where role r starts: nothing of it has happened. */
  predicate AtStart(s: State, r: Role)
  {
    s.boot == Start(r) && s.subs.Get(r) == NEW_SUB
  }

  /** SUBSCRIBE has been sent, its reader runs, nothing has been received. */
  predicate Asked(s: State, r: Role)
  {
    && s.boot == AwaitingOK(r)
    && s.subs.Get(r) == NEW_SUB.(id := s.subs.Get(r).id, sent := true, reader := Reading) && s.subs.Get(r).id != None
  }

  lemma Ask(run: seq<Action>, r: Role) returns (run': seq<Action>)
    requires Cooperative(run) && AtStart(Exec(run), r)
    ensures Cooperative(run') && run <= run'
    ensures var s, s' := Exec(run), Exec(run');
            && Asked(s', r) && s'.streams == s.streams && s'.sink == s.sink
            && (forall q :: q != r ==> s'.subs.Get(q) == s.subs.Get(q))
  {
    hide Exec, Cooperative;
    run' := Then(run, BootStep);
    run' := Then(run', BootStep);
    run' := Then(run', BootStep);
    run' := Then(run', BootStep);
  }

  /** A stream for the subscription is opened and mapped before SUBSCRIBE_OK. */
  lemma OpenEarly(run: seq<Action>, r: Role) returns (run': seq<Action>)
    requires Cooperative(run) && Asked(Exec(run), r)
    ensures Cooperative(run') && run <= run'
    ensures var s, s' := Exec(run), Exec(run');
            && s'.streams == s.streams + [Stream(s.subs.Get(r).id.value, Some(r), Looping, [])]
            && s'.boot == s.boot && s'.subs == s.subs && s'.sink == s.sink
  {
    hide Exec, Cooperative, Lookup;
    var s := Exec(run);
    var id := s.subs.Get(r).id.value;
    SentIsFound(run, r);
    run' := Then(run, Open(id));
    var i := |s.streams|;
    assert Exec(run').streams[i] == Stream(id, None, Opened, []);
    run' := Then(run', StreamStep(i));
    assert Exec(run').streams == s.streams + [Stream(id, None, Headed, [])];
    run' := Then(run', StreamStep(i));
    assert Exec(run').streams == s.streams + [Stream(id, Lookup(s.reg, id), Looping, [])];
  }

  lemma SentIsFound(run: seq<Action>, r: Role)
    requires Cooperative(run) && Exec(run).subs.Get(r).sent && Exec(run).subs.Get(r).id != None
    ensures Lookup(Exec(run).reg, Exec(run).subs.Get(r).id.value) == Some(r)
    ensures SentFor(Exec(run), Exec(run).subs.Get(r).id.value) != None
  {
    hide Exec, Cooperative;
    AlwaysRouted(run);
    LookupFinds(Exec(run), r);
  }

  /** SUBSCRIBE_OK arrives and is signalled. */
  lemma Hear(run: seq<Action>, r: Role) returns (run': seq<Action>)
    requires Cooperative(run)
    requires var sub := Exec(run).subs.Get(r); sub.reader == Reading && sub.okCh == None && sub.id != None
    ensures Cooperative(run') && run <= run'
    ensures var s, s' := Exec(run), Exec(run'); var id := s.subs.Get(r).id.value;
            && s'.subs.Get(r)
               == s.subs.Get(r).(okCh := Some(Accepted(id)), messages := s.subs.Get(r).messages + [SubscribeOK(id)])
            && OthersSame(s, s', r)
  {
    hide Exec, Cooperative, Bind;
    var sub := Exec(run).subs.Get(r);
    var id := sub.id.value;
    run' := Then(run, ReqRecv(r, SubscribeOK(id)));
    assert Exec(run').subs.Get(r) == sub.(reader := Binding(id), messages := sub.messages + [SubscribeOK(id)]);
    run' := Then(run', ReqStep(r));
    assert Exec(run').subs.Get(r) == sub.(reader := Signalling(id), messages := sub.messages + [SubscribeOK(id)]);
    run' := Then(run', ReqStep(r));
  }

  /** What the request reader of r leaves alone. */
  ghost predicate OthersSame(s: State, s': State, r: Role)
  {
    && s'.boot == s.boot && s'.streams == s.streams && s'.sink == s.sink
    && forall q :: q != r ==> s'.subs.Get(q) == s.subs.Get(q)
  }

  /** SUBSCRIBE_OK arrives and is processed to the end. */
  lemma Answer(run: seq<Action>, r: Role) returns (run': seq<Action>)
    requires Cooperative(run) && Exec(run).boot == AwaitingOK(r)
    requires var sub := Exec(run).subs.Get(r); sub.reader == Reading && sub.okCh == None && sub.id != None
    ensures Cooperative(run') && run <= run'
    ensures var s, s' := Exec(run), Exec(run');
            && s'.boot == (if r == Media then Ready else AwaitingObject(r))
            && s'.streams == s.streams && s'.sink == s.sink
            && s'.subs.Get(r).firstCh == s.subs.Get(r).firstCh && s'.subs.Get(r).reader == Reading
            && (forall q :: q != r ==> s'.subs.Get(q) == s.subs.Get(q))
  {
    hide Exec, Cooperative;
    run' := Hear(run, r);
    run' := Then(run', BootStep);
  }

  // ---------- catalog and init ----------

  /** The first object of a catalog or init stream is offered early and kept. */
  lemma OfferEarly(run: seq<Action>, r: Role, p: Payload) returns (run': seq<Action>)
    requires r != Media && Cooperative(run) && AtStart(Exec(run), r)
    ensures Cooperative(run') && run <= run'
    ensures var s, s' := Exec(run), Exec(run');
            && s'.boot == AwaitingObject(r) && s'.subs.Get(r).firstCh == Some(p) && s'.subs.Get(r).reader == Reading
            && s'.sink == s.sink
            && (forall q :: q != r ==> s'.subs.Get(q) == s.subs.Get(q))
  {
    hide Exec, Cooperative;
    run' := Ask(run, r);
    var asked := Exec(run');
    run' := OpenEarly(run', r);
    run' := ReadFirst(run', r, p, |asked.streams|);
    run' := Answer(run', r);
  }

  lemma ReadFirst(run: seq<Action>, r: Role, p: Payload, i: nat) returns (run': seq<Action>)
    requires r != Media && Cooperative(run) && i < |Exec(run).streams|
    requires Exec(run).streams[i].pc == Looping && Exec(run).streams[i].sub == Some(r)
    requires !Exec(run).subs.Get(r).gotFirst && Exec(run).subs.Get(r).firstCh == None
    ensures Cooperative(run') && run <= run'
    ensures var s, s' := Exec(run), Exec(run');
            && s'.subs.Get(r)
               == s.subs.Get(r).(gotFirst := true, firstCh := Some(p), offers := s.subs.Get(r).offers + [p])
            && s'.boot == s.boot && s'.sink == s.sink && (forall q :: q != r ==> s'.subs.Get(q) == s.subs.Get(q))
  {
    hide Exec, Cooperative;
    var t := Exec(run).streams[i];
    var o := Object(0, Data(p));
    run' := Then(run, Read(i, o));
    assert Exec(run').streams[i] == t.(pc := Got(o), read := t.read + [o]);
    run' := Then(run', StreamStep(i));
    assert Exec(run').streams[i] == t.(pc := Dispatching(o), read := t.read + [o]);
    run' := Then(run', StreamStep(i));
    assert Exec(run').streams[i] == t.(pc := Marking(p), read := t.read + [o]);
    run' := Then(run', StreamStep(i));
    assert Exec(run').streams[i] == t.(pc := Offering(p), read := t.read + [o]);
    run' := Then(run', StreamStep(i));
  }

  /** From the catalog to the start of the init subscription. */
  lemma CatalogParsed(catalog: Payload) returns (run: seq<Action>)
    ensures Cooperative(run) && AtStart(Exec(run), Init) && Exec(run).sink == []
    ensures Exec(run).subs.Get(Media) == NEW_SUB && Exec(run).subs.Get(Catalog).reader == Reading
  {
    hide Exec, Cooperative;
    StartsEmpty();
    run := OfferEarly([], Catalog, catalog);
    assert Exec(run).subs.Get(Init) == NEW_SUB && Exec(run).subs.Get(Media) == NEW_SUB;
    run := Then(run, BootStep);
    run := Then(run, BootStep);
    assert Exec(run).subs.Get(Init) == NEW_SUB && Exec(run).subs.Get(Media) == NEW_SUB;
  }

  /** From the catalog to the start of the media subscription. */
  lemma Bootstrapped(catalog: Payload, init: Payload) returns (run: seq<Action>)
    ensures Cooperative(run) && AtStart(Exec(run), Media) && Exec(run).sink == init
  {
    hide Exec, Cooperative;
    run := CatalogParsed(catalog);
    run := OfferEarly(run, Init, init);
    assert Exec(run).subs.Get(Media) == NEW_SUB;
    run := Then(run, BootStep);
    run := Then(run, BootStep);
    assert [] + init == init;
    run := Then(run, BootStep);
  }

  lemma StartsEmpty()
    ensures Cooperative([]) && Exec([]) == INITIAL
  {}

  // ---------- media ----------

  /** A mapped reader left alone reads and delivers all of os. */
  lemma {:induction false} ReadThem(run: seq<Action>, i: nat, os: seq<Object>) returns (run': seq<Action>)
    requires Cooperative(run) && i < |Exec(run).streams| && Exec(run).streams[i].pc == Looping
    ensures Cooperative(run') && run <= run' && Exec(run') == Delivery.HandleAll(Exec(run), i, os)
    decreases |os|
  {
    hide Exec, Cooperative, Delivery.Steps;
    if os == [] {
      run' := run;
    } else {
      var o := os[|os| - 1];
      run' := ReadThem(run, i, os[..|os| - 1]);
      run' := Then(run', Read(i, o));
      run' := StepAlong(run', i, 5);
    }
  }

  lemma {:induction false} StepAlong(run: seq<Action>, i: nat, n: nat) returns (run': seq<Action>)
    requires Cooperative(run) && i < |Exec(run).streams|
    ensures Cooperative(run') && run <= run' && Exec(run') == Delivery.Steps(Exec(run), i, n)
    decreases n
  {
    hide Exec, Cooperative, StepStream;
    if n == 0 {
      run' := run;
    } else {
      Delivery.Shape(Exec(run), i);
      run' := Then(run, StreamStep(i));
      run' := StepAlong(run', i, n - 1);
    }
  }

  /** Readers of streams leave the handshake alone. */
  lemma {:induction false} HandshakeKept(s: State, i: nat, os: seq<Object>)
    requires i < |s.streams| && s.streams[i].pc == Looping
    ensures var s' := Delivery.HandleAll(s, i, os);
            s'.boot == s.boot && SameHandshake(s.subs.media, s'.subs.media)
    decreases |os|
  {
    hide Delivery.Steps;
    if os != [] {
      var front := os[..|os| - 1];
      HandshakeKept(s, i, front);
      StepsKeepHandshake(Next(Delivery.HandleAll(s, i, front), Read(i, os[|os| - 1])), i, 5);
    }
  }

  lemma {:induction false} StepsKeepHandshake(s: State, i: nat, n: nat)
    requires i < |s.streams|
    ensures var s' := Delivery.Steps(s, i, n);
            s'.boot == s.boot && SameHandshake(s.subs.media, s'.subs.media)
    decreases n
  {
    hide StepStream;
    if n > 0 {
      Delivery.Shape(s, i);
      StreamKeeps(s, i, Media);
      StepsKeepHandshake(StepStream(s, i), i, n - 1);
    }
  }

  /** The sink holds the init payload and all media payloads, and the request
      stream of the media subscription is still silent. */
  predicate WrittenEarly(s: State, init: Payload, os: seq<Object>)
  {
    && s.sink == init + Concat(SinkOrder.Payloads(os))
    && s.boot == AwaitingOK(Media) && s.subs.media.messages == []
  }

  /** Every content can be delivered early, and nothing is lost by it. */
  lemma EarlyDataIsDelivered(catalog: Payload, init: Payload, os: seq<Object>)
    ensures exists run, k | 0 <= k <= |run| ::
              && Cooperative(run) && WrittenEarly(Exec(run[..k]), init, os)
              && Exec(run).boot == Ready && Exec(run).sink == init + Concat(SinkOrder.Payloads(os))
  {
    hide Exec, Cooperative, Delivery.HandleAll, Delivery.DeliverAll, Concat, SinkOrder.Payloads;
    var run := Bootstrapped(catalog, init);
    run := Ask(run, Media);
    var i := |Exec(run).streams|;
    run := OpenEarly(run, Media);
    var s := Exec(run);
    run := ReadThem(run, i, os);
    Delivery.SoloRun(s, i, os);
    Delivery.SinkGains(Delivery.View(s, Some(Media)), Some(Media), os);
    HandshakeKept(s, i, os);
    var ps := SinkOrder.Payloads(os);
    Output.WritesDoneIff([], |ps|, |ps|);
    assert ps[..|ps|] == ps;
    assert WrittenEarly(Exec(run), init, os);
    var whole := Answer(run, Media);
    assert whole[..|run|] == run;
  }

  // ---------- a relay that does not keep the rules ----------

  /** Routing can change: once the init SUBSCRIBE is out, a second SUBSCRIBE_OK
      on the catalog's request stream that names the init request ID as alias
      sends the init streams to the catalog subscription. */
  lemma RoutingCanChange(catalog: Payload)
    ensures exists run, k | 0 <= k <= |run| ::
              && Lookup(Exec(run[..k]).reg, 2) == Some(Init) && Exec(run[..k]).subs.init.id == Some(2)
              && Lookup(Exec(run).reg, 2) == Some(Catalog)
  {
    hide Exec, Cooperative;
    var run := CatalogParsed(catalog);
    run := Ask(run, Init);
    AlwaysRouted(run);
    SentIsFound(run, Init);
    var heard := run + [ReqRecv(Catalog, SubscribeOK(2))];
    ExecMore(run, ReqRecv(Catalog, SubscribeOK(2)));
    assert Exec(run).subs.Get(Catalog).reader == Reading;
    assert Exec(heard).subs.Get(Catalog).reader == Binding(2);
    var bound := heard + [ReqStep(Catalog)];
    ExecMore(heard, ReqStep(Catalog));
    assert bound[..|run|] == run;
  }
}
