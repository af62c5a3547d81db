// What one subgroup stream does when nobody else moves: the object loop as a
// function, which the step system refines and the imperative loop computes.
module Delivery {
  import opened Bytes
  import opened Output
  import opened Registry
  import opened Session
  import opened SinkOrder
  import Counters

  /** The state that handling objects of one stream touches, and the fate of the
      writes to come. */
  datatype Shared = Shared(
    sink: seq<byte>,
    fate: Fate,
    bytesWritten: uint64,
    objectsSeen: uint64,
    gapHints: uint64,
    statusObjects: uint64,
    firstCh: Option<Payload>,
    gotFirst: bool)

  /** The state afterwards, and whether a write has failed. */
  datatype Done = Done(w: Shared, failed: bool)

  /** One round of the object loop, for a stream mapped to sub. */
  function Deliver(w: Shared, sub: Option<Role>, o: Object): Done
  {
    var w1 := w.(objectsSeen := Add64(w.objectsSeen, 1));
    var w2 := if o.delta > 0 then w1.(gapHints := Add64(w1.gapHints, 1)) else w1;
    match o.body
    case Status => Done(w2.(statusObjects := Add64(w2.statusObjects, 1)), false)
    case Data(p) => DeliverPayload(w2, sub, p)
  }

  function DeliverPayload(w: Shared, sub: Option<Role>, p: Payload): Done
  {
    match sub
    case None => Done(w, false)
    case Some(Media) =>
      var w' := w.(fate := Later(w.fate));
      if !Accepts(w.fate) then Done(w', true)
      else Done(w'.(sink := w.sink + p, bytesWritten := Add64(w.bytesWritten, |p| % TWO_64)), false)
    case Some(_) => Done(if w.gotFirst then w else w.(gotFirst := true, firstCh := Offer(w.firstCh, p)), false)
  }

  /** The loop; it ends at the first write that fails. */
  function DeliverAll(w: Shared, sub: Option<Role>, os: seq<Object>): Done
  {
    if os == [] then Done(w, false)
    else
      var d := DeliverAll(w, sub, os[..|os| - 1]);
      if d.failed then d else Deliver(d.w, sub, os[|os| - 1])
  }

  lemma DeliverMore(w: Shared, sub: Option<Role>, os: seq<Object>, o: Object)
    requires !DeliverAll(w, sub, os).failed
    ensures DeliverAll(w, sub, os + [o]) == Deliver(DeliverAll(w, sub, os).w, sub, o)
  {
    assert (os + [o])[..|os|] == os;
  }

  lemma {:induction false} FailureStays(w: Shared, sub: Option<Role>, a: seq<Object>, b: seq<Object>)
    requires DeliverAll(w, sub, a).failed
    ensures DeliverAll(w, sub, a + b) == DeliverAll(w, sub, a)
    decreases |b|
  {
    hide Deliver;
    if b == [] {
      assert a + b == a;
    } else {
      FailureStays(w, sub, a, b[..|b| - 1]);
      assert (a + b)[..|a + b| - 1] == a + b[..|b| - 1];
    }
  }

  // ---------- in closed form ----------

  /** The payloads that a stream writes. */
  function ToWrite(sub: Option<Role>, os: seq<Object>): seq<Payload>
  {
    if sub == Some(Media) then Payloads(os) else []
  }

  /** The sink gains exactly the payloads of a media stream, in order, up to the
      first write that fails; and a write fails exactly if not all of them do. */
  lemma SinkGains(w: Shared, sub: Option<Role>, os: seq<Object>)
    ensures var d, ps := DeliverAll(w, sub, os), ToWrite(sub, os); var n := WritesDone(w.fate, |ps|);
            d.w.sink == w.sink + Concat(ps[..n]) && (d.failed <==> n < |ps|)
  {
    hide DeliverAll, ToWrite, Concat, WritesDone, FateAfter;
    Gains(w, sub, os);
  }

  /** What d must amount to after payloads ps, starting from w. */
  predicate Gained(d: Done, w: Shared, ps: seq<Payload>)
  {
    var n := WritesDone(w.fate, |ps|);
    && d.w.sink == w.sink + Concat(ps[..n]) && (d.failed <==> n < |ps|)
    && (!d.failed ==> d.w.fate == FateAfter(w.fate, n))
  }

  lemma {:induction false} Gains(w: Shared, sub: Option<Role>, os: seq<Object>)
    ensures Gained(DeliverAll(w, sub, os), w, ToWrite(sub, os))
    decreases |os|
  {
    hide Deliver, Gained;
    if os == [] {
      NothingGained(w);
      assert ToWrite(sub, os) == [];
    } else {
      var front, o := os[..|os| - 1], os[|os| - 1];
      Gains(w, sub, front);
      assert os == front + [o];
      OneGains(w, sub, front, o);
    }
  }

  lemma NothingGained(w: Shared)
    ensures Gained(Done(w, false), w, [])
  {
    assert w.sink + [] == w.sink;
  }

  lemma OneGains(w: Shared, sub: Option<Role>, front: seq<Object>, o: Object)
    requires Gained(DeliverAll(w, sub, front), w, ToWrite(sub, front))
    ensures Gained(DeliverAll(w, sub, front + [o]), w, ToWrite(sub, front + [o]))
  {
    hide Deliver, DeliverAll, ToWrite, PayloadOf, Gained, Concat;
    var d, ps := DeliverAll(w, sub, front), ToWrite(sub, front);
    var added := if sub == Some(Media) then PayloadOf(o) else [];
    ToWriteMore(sub, front, o);
    OneWrites(d.w, sub, o);
    if d.failed {
      FailureStays(w, sub, front, [o]);
      GainedFailed(d, w, ps, added);
    } else {
      DeliverMore(w, sub, front, o);
      GainedMore(d, Deliver(d.w, sub, o), w, ps, added);
    }
  }

  /** Behind a failed write nothing is gained. */
  lemma GainedFailed(d: Done, w: Shared, ps: seq<Payload>, added: seq<Payload>)
    requires Gained(d, w, ps) && d.failed && |added| <= 1
    ensures Gained(d, w, ps + added)
  {
    hide Concat;
    var n := WritesDone(w.fate, |ps|);
    assert (ps + added)[..n] == ps[..n];
    assert added == [] ==> ps + added == ps;
  }

  lemma GainedMore(d: Done, d': Done, w: Shared, ps: seq<Payload>, added: seq<Payload>)
    requires Gained(d, w, ps) && !d.failed && |added| <= 1
    requires d'.failed <==> added != [] && !Accepts(d.w.fate)
    requires d'.w.sink == d.w.sink + (if d'.failed then [] else Concat(added))
    requires d'.w.fate == if added == [] then d.w.fate else Later(d.w.fate)
    ensures Gained(d', w, ps + added)
  {
    hide Gained, Concat, Accepts, Later;
    if added == [] {
      NothingToJoin();
      assert d.w.sink + [] == d.w.sink && ps + added == ps;
      GainedSame(d, d', w, ps);
    } else {
      GainedOne(d, d', w, ps, added);
    }
  }

  lemma GainedSame(d: Done, d': Done, w: Shared, ps: seq<Payload>)
    requires Gained(d, w, ps) && d'.failed == d.failed && d'.w.sink == d.w.sink && d'.w.fate == d.w.fate
    ensures Gained(d', w, ps)
  {
    hide Concat, WritesDone, FateAfter;
  }

  lemma GainedOne(d: Done, d': Done, w: Shared, ps: seq<Payload>, added: seq<Payload>)
    requires Gained(d, w, ps) && !d.failed && |added| == 1
    requires d'.failed <==> !Accepts(d.w.fate)
    requires d'.w.sink == d.w.sink + (if d'.failed then [] else Concat(added))
    requires d'.w.fate == Later(d.w.fate)
    ensures Gained(d', w, ps + added)
  {
    hide Concat, Accepts, Later, WritesDone, FateAfter;
    assert ps[..|ps|] == ps;
    OneMoreWrite(w.fate, |ps|);
    if d'.failed {
      assert (ps + added)[..|ps|] == ps && d.w.sink + [] == d.w.sink;
    } else {
      ConcatAppend(ps, added);
      assert (ps + added)[..|ps| + 1] == ps + added;
      assert w.sink + Concat(ps) + Concat(added) == w.sink + (Concat(ps) + Concat(added));
    }
  }

  lemma NothingToJoin()
    ensures Concat<byte>([]) == []
  {}

  lemma ToWriteMore(sub: Option<Role>, front: seq<Object>, o: Object)
    ensures ToWrite(sub, front + [o]) == ToWrite(sub, front) + (if sub == Some(Media) then PayloadOf(o) else [])
  {
    ReadAppend(front, o);
  }

  /** One round writes at most one payload. */
  lemma OneWrites(w: Shared, sub: Option<Role>, o: Object)
    ensures var d, added := Deliver(w, sub, o), if sub == Some(Media) then PayloadOf(o) else [];
            && |added| <= 1 && (d.failed <==> added != [] && !Accepts(w.fate))
            && d.w.sink == w.sink + (if d.failed then [] else Concat(added))
            && d.w.fate == if added == [] then w.fate else Later(w.fate)
  {
    if o.body.Data? { assert Concat([o.body.payload]) == o.body.payload + [] == o.body.payload; }
    assert w.sink + [] == w.sink;
  }

  /** The number of objects that the loop takes: all, or up to and including the
      one whose write fails. */
  function Taken(w: Shared, sub: Option<Role>, os: seq<Object>): (n: nat)
    ensures n <= |os|
    ensures !DeliverAll(w, sub, os).failed ==> n == |os|
  {
    if os == [] then 0
    else
      var front := os[..|os| - 1];
      if DeliverAll(w, sub, front).failed then Taken(w, sub, front) else |os|
  }

  /** The counters gain the number of objects taken, of positive deltas and of
      statuses among them. */
  lemma {:induction false} CountersGain(w: Shared, sub: Option<Role>, os: seq<Object>)
    ensures CountersShow(DeliverAll(w, sub, os).w, w, os[..Taken(w, sub, os)])
    decreases |os|
  {
    hide Deliver, CountersShow;
    if os == [] {
      NothingCounted(w);
      assert os[..0] == [];
    } else {
      var front, o := os[..|os| - 1], os[|os| - 1];
      var d := DeliverAll(w, sub, front);
      CountersGain(w, sub, front);
      if d.failed {
        assert os[..Taken(w, sub, os)] == front[..Taken(w, sub, front)];
      } else {
        assert front[..|front|] == front && os[..|os|] == os && os == front + [o];
        OneMoreCounted(d.w, w, sub, front, o);
      }
    }
  }

  /** From w to w' the counters have gained what os should make them gain. */
  predicate CountersShow(w': Shared, w: Shared, os: seq<Object>)
  {
    && w'.objectsSeen == (w.objectsSeen + |os|) % TWO_64
    && w'.gapHints == (w.gapHints + Counters.Hints(os)) % TWO_64
    && w'.statusObjects == (w.statusObjects + Counters.Statuses(os)) % TWO_64
  }

  lemma NothingCounted(w: Shared)
    ensures CountersShow(w, w, [])
  {}

  lemma OneMoreCounted(w': Shared, w: Shared, sub: Option<Role>, front: seq<Object>, o: Object)
    requires CountersShow(w', w, front)
    ensures CountersShow(Deliver(w', sub, o).w, w, front + [o])
  {
    hide Deliver, Add64;
    assert (front + [o])[..|front|] == front;
    OneCounts(w', sub, o);
    AddWrapped(w.objectsSeen + |front|, 1);
    AddWrapped(w.gapHints + Counters.Hints(front), 1);
    AddWrapped(w.statusObjects + Counters.Statuses(front), 1);
  }

  lemma OneCounts(w: Shared, sub: Option<Role>, o: Object)
    ensures var w' := Deliver(w, sub, o).w;
            && w'.objectsSeen == Add64(w.objectsSeen, 1)
            && w'.gapHints == (if o.delta > 0 then Add64(w.gapHints, 1) else w.gapHints)
            && w'.statusObjects == (if o.body.Status? then Add64(w.statusObjects, 1) else w.statusObjects)
  {}

  /** A catalog or init stream offers its first payload, and only if no reader
      has got a first object yet. */
  lemma {:induction false} OffersFirst(w: Shared, sub: Option<Role>, os: seq<Object>)
    requires sub == Some(Catalog) || sub == Some(Init)
    ensures var d := DeliverAll(w, sub, os); var w' := d.w;
            && !d.failed
            && if w.gotFirst || Payloads(os) == [] then w'.gotFirst == w.gotFirst && w'.firstCh == w.firstCh
               else w'.gotFirst && w'.firstCh == Offer(w.firstCh, Payloads(os)[0])
  {
    if os != [] {
      OffersFirst(w, sub, os[..|os| - 1]);
    }
  }

  // ---------- the step system run by one reader alone ----------

  /** No write fails unless a step says so. */
  function View(s: State, sub: Option<Role>): Shared
  {
    Shared(s.sink, [], s.bytesWritten, s.objectsSeen, s.gapHints, s.statusObjects,
           if sub == None then None else s.subs.Get(sub.value).firstCh,
           sub != None && s.subs.Get(sub.value).gotFirst)
  }

  /** Stream i takes n steps. */
  function Steps(s: State, i: nat, n: nat): State
    requires i < |s.streams|
    decreases n
  {
    if n == 0 then s else Shape(s, i); Steps(StepStream(s, i), i, n - 1)
  }

  lemma Shape(s: State, i: nat)
    requires i < |s.streams|
    ensures |StepStream(s, i).streams| == |s.streams|
  {}

  /** Reading and handling one object: at most five steps after the read. */
  function Handle(s: State, i: nat, o: Object): State
    requires i < |s.streams|
  {
    Steps(Next(s, Read(i, o)), i, 5)
  }

  lemma Counting(s: State, i: nat, o: Object)
    requires i < |s.streams| && s.streams[i].pc == Got(o)
    ensures var n := if o.delta > 0 then 2 else 1; var s' := Steps(s, i, n);
            && |s'.streams| == |s.streams| && s'.streams[i] == s.streams[i].(pc := Dispatching(o))
            && s'.subs == s.subs && s'.sink == s.sink
            && s'.bytesWritten == s.bytesWritten && s'.statusObjects == s.statusObjects
            && s'.objectsSeen == Add64(s.objectsSeen, 1)
            && s'.gapHints == if o.delta > 0 then Add64(s.gapHints, 1) else s.gapHints
  {
    if o.delta > 0 {
      var s1 := StepStream(s, i);
      assert Steps(s1, i, 1) == StepStream(s1, i) by { assert Steps(StepStream(s1, i), i, 0) == StepStream(s1, i); }
    }
  }

  /** What three steps from Dispatching(o) must amount to. */
  predicate Handled(s: State, s': State, i: nat, o: Object)
    requires i < |s.streams|
  {
    var sub := s.streams[i].sub;
    && |s'.streams| == |s.streams| && s'.streams[i] == s.streams[i].(pc := Looping)
    && Done(View(s', sub), false) ==
         (match o.body
          case Status => Done(View(s, sub).(statusObjects := Add64(s.statusObjects, 1)), false)
          case Data(p) => DeliverPayload(View(s, sub), sub, p))
  }

  lemma ThreeSteps(s: State, i: nat)
    requires i < |s.streams|
    ensures |StepStream(s, i).streams| == |StepStream(StepStream(s, i), i).streams| == |s.streams|
    ensures Steps(s, i, 3) == StepStream(StepStream(StepStream(s, i), i), i)
  {
    hide StepStream;
    Shape(s, i);
    var s1 := StepStream(s, i);
    Shape(s1, i);
    var s2 := StepStream(s1, i);
    Shape(s2, i);
    assert Steps(s2, i, 1) == Steps(StepStream(s2, i), i, 0);
  }

  lemma Dispatching3(s: State, i: nat, o: Object)
    requires i < |s.streams| && s.streams[i].pc == Dispatching(o)
    ensures Handled(s, Steps(s, i, 3), i, o)
  {
    hide Steps, Handled, StepStream;
    ThreeSteps(s, i);
    var sub := s.streams[i].sub;
    if IsWriting(s.streams[i]) {
      Writing3(s, i, o);
    } else if o.body.Data? && sub != None && !s.subs.Get(sub.value).gotFirst {
      Offering3(s, i, o);
    } else {
      Skipping3(s, i, o);
    }
  }

  lemma Writing3(s: State, i: nat, o: Object)
    requires i < |s.streams| && s.streams[i].pc == Dispatching(o) && IsWriting(s.streams[i])
    ensures |StepStream(s, i).streams| == |StepStream(StepStream(s, i), i).streams| == |s.streams|
    ensures Handled(s, StepStream(StepStream(StepStream(s, i), i), i), i, o)
  {}

  lemma Offering3(s: State, i: nat, o: Object)
    requires i < |s.streams| && s.streams[i].pc == Dispatching(o) && o.body.Data?
    requires s.streams[i].sub == Some(Catalog) || s.streams[i].sub == Some(Init)
    requires !s.subs.Get(s.streams[i].sub.value).gotFirst
    ensures |StepStream(s, i).streams| == |StepStream(StepStream(s, i), i).streams| == |s.streams|
    ensures Handled(s, StepStream(StepStream(StepStream(s, i), i), i), i, o)
  {
    var s1 := StepStream(s, i);
    assert s1.streams[i] == s.streams[i].(pc := Marking(o.body.payload));
    var s2 := StepStream(s1, i);
    assert s2.streams[i] == s.streams[i].(pc := Offering(o.body.payload));
  }

  lemma Skipping3(s: State, i: nat, o: Object)
    requires i < |s.streams| && s.streams[i].pc == Dispatching(o) && !IsWriting(s.streams[i])
    requires o.body.Status? || s.streams[i].sub == None || s.subs.Get(s.streams[i].sub.value).gotFirst
    ensures |StepStream(s, i).streams| == |StepStream(StepStream(s, i), i).streams| == |s.streams|
    ensures Handled(s, StepStream(StepStream(StepStream(s, i), i), i), i, o)
  {}

  lemma {:induction false} StepsAdd(s: State, i: nat, m: nat, n: nat)
    requires i < |s.streams|
    ensures |Steps(s, i, m).streams| == |s.streams|
    ensures Steps(s, i, m + n) == Steps(Steps(s, i, m), i, n)
    decreases m
  {
    hide StepStream;
    if m > 0 {
      Shape(s, i);
      StepsAdd(StepStream(s, i), i, m - 1, n);
    }
  }

  lemma {:induction false} Rests(s: State, i: nat, n: nat)
    requires i < |s.streams| && s.streams[i].pc == Looping
    ensures Steps(s, i, n) == s
    decreases n
  {
    if n > 0 { Rests(s, i, n - 1); }
  }

  /** Left alone, a reader does to the shared state what one round of the loop does. */
  lemma HandleIsDeliver(s: State, i: nat, o: Object)
    requires i < |s.streams| && s.streams[i].pc == Looping
    ensures var t, s' := s.streams[i], Handle(s, i, o);
            && |s'.streams| == |s.streams| && s'.streams[i] == t.(read := t.read + [o])
            && Done(View(s', t.sub), false) == Deliver(View(s, t.sub), t.sub, o)
  {
    hide StepStream, DeliverPayload, Steps;
    var sub := s.streams[i].sub;
    var s0 := Next(s, Read(i, o));
    var n := if o.delta > 0 then 2 else 1;
    Counting(s0, i, o);
    var s1 := Steps(s0, i, n);
    Dispatching3(s1, i, o);
    var s2 := Steps(s1, i, 3);
    Rests(s2, i, 2 - n);
    StepsAdd(s1, i, 3, 2 - n);
    StepsAdd(s0, i, n, 5 - n);
  }

  function HandleAll(s: State, i: nat, os: seq<Object>): State
    requires i < |s.streams| && s.streams[i].pc == Looping
    ensures |HandleAll(s, i, os).streams| == |s.streams| && HandleAll(s, i, os).streams[i].pc == Looping
    decreases |os|
  {
    if os == [] then s
    else
      var s1 := HandleAll(s, i, os[..|os| - 1]);
      HandleIsDeliver(s1, i, os[|os| - 1]);
      Handle(s1, i, os[|os| - 1])
  }

  /** The whole object loop, run without interference, is DeliverAll. */
  lemma {:induction false} SoloRun(s: State, i: nat, os: seq<Object>)
    requires i < |s.streams| && s.streams[i].pc == Looping
    ensures var t, s' := s.streams[i], HandleAll(s, i, os);
            && s'.streams[i] == t.(read := t.read + os)
            && Done(View(s', t.sub), false) == DeliverAll(View(s, t.sub), t.sub, os)
    decreases |os|
  {
    hide Handle, Deliver;
    var t := s.streams[i];
    if os == [] {
      assert t.read + [] == t.read;
    } else {
      var front, o := os[..|os| - 1], os[|os| - 1];
      SoloRun(s, i, front);
      HandleIsDeliver(HandleAll(s, i, front), i, o);
      assert t.read + front + [o] == t.read + os;
    }
  }

  /** If the write of a media payload fails, the reader stops where the loop
      does, and leaves what the loop leaves. */
  lemma BrokenIsFailure(s: State, i: nat, o: Object)
    requires i < |s.streams| && s.streams[i].pc == Looping && s.streams[i].sub == Some(Media) && o.body.Data?
    ensures var t, n := s.streams[i], if o.delta > 0 then 2 else 1;
            var s1 := Steps(Next(s, Read(i, o)), i, n);
            var s' := Next(s1, BreakWrite(i));
            && |s'.streams| == |s.streams| && s'.streams[i] == t.(read := t.read + [o], pc := Broken(o.body.payload))
            && Done(View(s', t.sub), true) == Deliver(View(s, t.sub).(fate := [false]), t.sub, o)
  {
    hide Steps, StepStream;
    Counting(Next(s, Read(i, o)), i, o);
  }

  /** Opening and mapping stream number |s.streams|. */
  function OpenAndMap(s: State, alias: uint64): State
  {
    var i := |s.streams|;
    Next(Next(Next(s, Open(alias)), StreamStep(i)), StreamStep(i))
  }

  lemma Mapped(s: State, alias: uint64)
    ensures var i, s' := |s.streams|, OpenAndMap(s, alias);
            && |s'.streams| == i + 1 && s'.streams[i] == Stream(alias, Lookup(s.reg, alias), Looping, [])
            && s' == s.(streams := s'.streams, groupsSeen := Add64(s.groupsSeen, 1))
  {
    hide Lookup;
    var i := |s.streams|;
    var s1 := Next(s, Open(alias));
    assert s1.streams[i] == Stream(alias, None, Opened, []);
    var s2 := Next(s1, StreamStep(i));
    assert s2.streams[i] == Stream(alias, None, Headed, []);
  }

  /** A whole stream without interference: it is counted, mapped once, delivered
      to the end, and then it is over. */
  lemma SoloStream(s: State, alias: uint64, os: seq<Object>)
    ensures var i, sub, s1 := |s.streams|, Lookup(s.reg, alias), OpenAndMap(s, alias);
            && i < |s1.streams| && s1.streams[i].pc == Looping && s1.groupsSeen == Add64(s.groupsSeen, 1)
            && (var s' := Next(HandleAll(s1, i, os), End(i));
                && |s'.streams| == i + 1 && s'.streams[i] == Stream(alias, sub, Ended, os)
                && Done(View(s', sub), false) == DeliverAll(View(s, sub), sub, os))
  {
    hide HandleAll, DeliverAll, Lookup, OpenAndMap;
    Mapped(s, alias);
    SoloRun(OpenAndMap(s, alias), |s.streams|, os);
    assert [] + os == os;
  }
}
