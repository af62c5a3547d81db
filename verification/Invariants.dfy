// What every step of the session keeps, in parts: the progress of the
// bootstrap, the hand-off channels, the order and completeness of the sink.
module Invariants {
  import opened Bytes
  import opened Registry
  import opened Session

  // ---------- progress of the bootstrap ----------

  function Base(r: Role): nat
  {
    match r case Catalog => 0 case Init => 10 case Media => 20
  }

  /** Where the bootstrap is, as a number; a failed one is past everything. */
  function Rank(b: BootPc): nat
  {
    match b
    case Start(r) => Base(r) + 1
    case Registering(r) => Base(r) + 2
    case Sending(r) => Base(r) + 3
    case Spawning(r) => Base(r) + 4
    case AwaitingOK(r) => Base(r) + 5
    case AwaitingObject(r) => Base(r) + 6
    case ParsingCatalog => 7
    case WritingInit(_) => 17
    case CountingInit(_) => 18
    case Ready => 30
    case Failed => 40
  }

  /** What has not happened yet for the subscription of role r. */
  ghost predicate NotYet(s: State, r: Role)
  {
    var sub, n := s.subs.Get(r), Rank(s.boot);
    && (n <= Base(r) + 1 ==> sub.id == None)
    && (n <= Base(r) + 3 ==> !sub.sent)
    && (n <= Base(r) + 4 ==> sub.reader == NotStarted)
    && (n <= Base(r) + 5 ==> sub.verdict == None)
    && (n <= Base(r) + 6 ==> sub.first == None)
    && (n <= Base(r) + 2 ==> !Registered(s.reg, r))
    && (sub.reader == NotStarted ==> !BoundSome(s.reg, r))
    && (Base(r) + 1 < n <= 30 ==> sub.id != None)
  }

  ghost predicate Registered(reg: Reg<Role>, r: Role)
  {
    exists a :: a in reg.byRequest && reg.byRequest[a] == r
  }

  ghost predicate BoundSome(reg: Reg<Role>, r: Role)
  {
    exists a :: a in reg.byAlias && reg.byAlias[a] == r
  }

  ghost predicate Progress(s: State)
  {
    && s.boot != AwaitingObject(Media)
    && forall r :: NotYet(s, r)
  }

  lemma ProgressStep(s: State, a: Action)
    requires Progress(s)
    ensures Progress(Next(s, a))
  {
    var s' := Next(s, a);
    forall r ensures NotYet(s', r) {
      assert NotYet(s, r);
      NotYetStep(s, a, r);
    }
  }

  lemma NotYetStep(s: State, a: Action, r: Role)
    requires Progress(s)
    ensures NotYet(Next(s, a), r)
  {
    hide StepBoot, FailBoot, StepReader, Receive, StepStream, NotYet;
    match a
    case BootStep => NotYetBoot(s, r);
    case BootFail => NotYetFail(s, r);
    case ReqRecv(q, m) => NotYetReader(s, Receive(s, q, m), q, r) by { ReceiveKeeps(s, q, m); }
    case ReqStep(q) => NotYetReader(s, StepReader(s, q), q, r) by { StepReaderKeeps(s, q); }
    case ReqClose(q) => NotYetReader(s, Next(s, a), q, r);
    case StreamStep(i) => if i < |s.streams| { StreamKeeps(s, i, r); NotYetFrame(s, StepStream(s, i), r); }
    case _ => NotYetFrame(s, Next(s, a), r);
  }

  /** An action that does not touch what NotYet speaks of. */
  lemma NotYetFrame(s: State, s': State, r: Role)
    requires Progress(s) && s'.boot == s.boot && s'.reg == s.reg
    requires SameHandshake(s.subs.Get(r), s'.subs.Get(r))
    ensures NotYet(s', r)
  {
    assert NotYet(s, r);
  }

  /** Everything but what object deliveries change. */
  predicate SameHandshake(sub: Sub, sub': Sub)
  {
    sub' == sub.(firstCh := sub'.firstCh, gotFirst := sub'.gotFirst, offers := sub'.offers)
  }

  lemma StreamKeeps(s: State, i: nat, r: Role)
    requires i < |s.streams|
    ensures var s' := StepStream(s, i);
            s'.boot == s.boot && s'.reg == s.reg && SameHandshake(s.subs.Get(r), s'.subs.Get(r))
  {}

  lemma NotYetFail(s: State, r: Role)
    requires Progress(s)
    ensures NotYet(FailBoot(s), r)
  {
    assert NotYet(s, r);
  }

  lemma NotYetBoot(s: State, r: Role)
    requires Progress(s)
    ensures NotYet(StepBoot(s), r)
  {
    hide StepBoot, NotYet, Rank;
    assert NotYet(s, r);
    BootRegistry(s, r);
    RankGrows(s);
    if OwnStep(s.boot, r) { NotYetOwn(s, r); } else { NotYetOther(s, r); }
  }

  predicate OwnStep(b: BootPc, r: Role)
  {
    match b
    case Start(q) => q == r
    case Registering(q) => q == r
    case Sending(q) => q == r
    case Spawning(q) => q == r
    case AwaitingOK(q) => q == r
    case AwaitingObject(q) => q == r
    case _ => false
  }

  lemma RankGrows(s: State)
    requires s.boot != AwaitingObject(Media)
    ensures Rank(s.boot) <= Rank(StepBoot(s).boot)
    ensures StepBoot(s).boot != AwaitingObject(Media)
    ensures forall r :: !OwnStep(s.boot, r) ==> StepBoot(s).subs.Get(r) == s.subs.Get(r)
    ensures forall r :: !OwnStep(s.boot, r) && Base(r) + 1 < Rank(StepBoot(s).boot) <= 30 ==> Base(r) + 1 < Rank(s.boot)
  {
    match s.boot
    case Start(q) =>
    case Registering(q) =>
    case Sending(q) =>
    case Spawning(q) =>
    case AwaitingOK(q) =>
    case AwaitingObject(q) =>
    case _ =>
  }

  lemma NotYetOther(s: State, r: Role)
    requires NotYet(s, r) && !OwnStep(s.boot, r)
    requires var s' := StepBoot(s);
             && Rank(s.boot) <= Rank(s'.boot) && s'.subs.Get(r) == s.subs.Get(r)
             && (Base(r) + 1 < Rank(s'.boot) <= 30 ==> Base(r) + 1 < Rank(s.boot))
             && s'.reg.byAlias == s.reg.byAlias
             && (Registered(s'.reg, r) ==> Registered(s.reg, r) || s.boot == Registering(r))
    ensures NotYet(StepBoot(s), r)
  {
    hide StepBoot, Rank, Registered;
  }

  lemma NotYetOwn(s: State, r: Role)
    requires NotYet(s, r) && OwnStep(s.boot, r) && s.boot != AwaitingObject(Media)
    requires StepBoot(s).reg.byAlias == s.reg.byAlias
    requires Registered(StepBoot(s).reg, r) ==> Registered(s.reg, r) || s.boot == Registering(r)
    ensures NotYet(StepBoot(s), r)
  {
    hide Registered, BoundSome, Lookup;
    assert BoundSome(StepBoot(s).reg, r) ==> BoundSome(s.reg, r) by { SameAliases(s, r); }
    match s.boot
    case Start(_) =>
    case Registering(_) =>
    case Sending(_) =>
    case Spawning(_) =>
    case AwaitingOK(_) =>
    case AwaitingObject(_) =>
  }

  lemma SameAliases(s: State, r: Role)
    requires StepBoot(s).reg.byAlias == s.reg.byAlias
    ensures BoundSome(StepBoot(s).reg, r) ==> BoundSome(s.reg, r)
  {}

  lemma BootRegistry(s: State, r: Role)
    ensures Registered(StepBoot(s).reg, r) ==> Registered(s.reg, r) || s.boot == Registering(r)
    ensures StepBoot(s).reg.byAlias == s.reg.byAlias
  {}

  /** A request reader's step: it was started, and it binds for its own role only. */
  lemma NotYetReader(s: State, s': State, q: Role, r: Role)
    requires Progress(s)
    requires s'.boot == s.boot && s'.reg.byRequest == s.reg.byRequest
    requires s' != s ==> s.subs.Get(q).reader != NotStarted && s'.subs.Get(q).reader != NotStarted
    requires s'.subs == s.subs.Set(q, s'.subs.Get(q))
    requires var sub := s'.subs.Get(q);
             sub == s.subs.Get(q).(reader := sub.reader, messages := sub.messages, okCh := sub.okCh)
    requires forall a :: a in s'.reg.byAlias ==>
               s'.reg.byAlias[a] == q || (a in s.reg.byAlias && s.reg.byAlias[a] == s'.reg.byAlias[a])
    ensures NotYet(s', r)
  {
    assert NotYet(s, r) && NotYet(s, q);
    assert r != q ==> s'.subs.Get(r) == s.subs.Get(r);
    assert BoundSome(s'.reg, r) && r != q ==> BoundSome(s.reg, r);
  }

  lemma ReceiveKeeps(s: State, q: Role, m: Message)
    ensures var s' := Receive(s, q, m);
            && s'.boot == s.boot && s'.reg == s.reg
            && (s' != s ==> s.subs.Get(q).reader != NotStarted && s'.subs.Get(q).reader != NotStarted)
            && s'.subs == s.subs.Set(q, s'.subs.Get(q))
            && (var sub := s'.subs.Get(q);
                sub == s.subs.Get(q).(reader := sub.reader, messages := sub.messages, okCh := sub.okCh))
  {}

  lemma StepReaderKeeps(s: State, q: Role)
    ensures var s' := StepReader(s, q);
            && s'.boot == s.boot && s'.reg.byRequest == s.reg.byRequest
            && (s' != s ==> s.subs.Get(q).reader != NotStarted && s'.subs.Get(q).reader != NotStarted)
            && s'.subs == s.subs.Set(q, s'.subs.Get(q))
            && (var sub := s'.subs.Get(q);
                sub == s.subs.Get(q).(reader := sub.reader, messages := sub.messages, okCh := sub.okCh))
            && (forall a :: a in s'.reg.byAlias ==>
                  s'.reg.byAlias[a] == q || (a in s.reg.byAlias && s.reg.byAlias[a] == s'.reg.byAlias[a]))
  {}

  // ---------- who touches the streams ----------

  lemma BootLeavesStreams(s: State)
    ensures StepBoot(s).streams == FailBoot(s).streams == s.streams
  {}

  lemma ReaderLeavesStreams(s: State, r: Role, m: Message)
    ensures StepReader(s, r).streams == Receive(s, r, m).streams == s.streams
  {}
}
