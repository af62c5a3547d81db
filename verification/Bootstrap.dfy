// What the bootstrap has behind it wherever it stands, and how it ends.
module Bootstrap {
  import opened Bytes
  import opened Registry
  import opened Session
  import opened Invariants

  // ---------- what is behind ----------

  /** The subscription was accepted, and its first object received if it has one. */
  predicate Served(s: State, r: Role)
  {
    var sub := s.subs.Get(r);
    sub.verdict.Some? && sub.verdict.value.Accepted? && (r != Media ==> sub.first.Some?)
  }

  predicate Earlier(q: Role, r: Role)
  {
    Base(q) < Base(r)
  }

  /** For the subscription of role r: a rejection is the end; past the waits
      there is what was waited for; and nothing of it has begun before all
      earlier ones were served, and the init segment written for media. */
  ghost predicate Followed(s: State, r: Role)
  {
    var sub, n := s.subs.Get(r), Rank(s.boot);
    && (sub.verdict == Some(Rejected) ==> s.boot == Failed)
    && (Base(r) + 3 < n <= 30 ==> sub.sent)
    && (Base(r) + 4 < n <= 30 ==> sub.reader != NotStarted)
    && (Base(r) + 5 < n <= 30 ==> sub.verdict.Some? && sub.verdict.value.Accepted?)
    && (Base(r) + 6 < n <= 30 && r != Media ==> sub.first.Some?)
    && (sub.id != None ==> forall q :: Earlier(q, r) ==> Served(s, q))
    && (sub.id != None && r == Media ==> s.log != [])
    && (18 <= n <= 30 ==> s.log != [])
  }

  ghost predicate AllFollowed(s: State)
  {
    forall r :: Followed(s, r)
  }

  lemma FollowedBoot(s: State, r: Role)
    requires Progress(s) && AllFollowed(s)
    ensures Followed(StepBoot(s), r)
  {
    hide AllFollowed, Followed, StepBoot, Progress, NotYet, Rank, Served;
    StaysServed(s);
    if s.boot == Start(r) {
      BeginFollowed(s, r);
    } else if OwnStep(s.boot, r) {
      OwnFollowed(s, r);
    } else {
      OtherFollowed(s, r);
    }
  }

  /** What has been served stays served. */
  lemma StaysServed(s: State)
    requires Progress(s)
    ensures forall q :: Served(s, q) ==> Served(StepBoot(s), q)
    ensures s.log != [] ==> StepBoot(s).log != []
  {
    hide Progress;
    forall q | Served(s, q) ensures Served(StepBoot(s), q) {
      assert NotYet(s, q) by { NotYetOf(s, q); }
    }
  }

  lemma NotYetOf(s: State, q: Role)
    requires Progress(s)
    ensures NotYet(s, q) && s.boot != AwaitingObject(Media)
  {}

  lemma FollowedOf(s: State, q: Role)
    requires AllFollowed(s)
    ensures Followed(s, q)
  {}

  lemma BeginFollowed(s: State, r: Role)
    requires Progress(s) && AllFollowed(s) && s.boot == Start(r)
    requires forall q :: Served(s, q) ==> Served(StepBoot(s), q)
    ensures Followed(StepBoot(s), r)
  {
    hide Progress, AllFollowed;
    NotYetOf(s, r);
    FollowedOf(s, r);
    forall q | Earlier(q, r) ensures Served(s, q) { FollowedOf(s, q); }
  }

  lemma OwnFollowed(s: State, r: Role)
    requires Progress(s) && AllFollowed(s) && OwnStep(s.boot, r) && s.boot != Start(r)
    requires forall q :: Served(s, q) ==> Served(StepBoot(s), q)
    ensures Followed(StepBoot(s), r)
  {
    hide Progress, AllFollowed, Served;
    NotYetOf(s, r);
    FollowedOf(s, r);
  }

  lemma OtherFollowed(s: State, r: Role)
    requires Progress(s) && AllFollowed(s) && !OwnStep(s.boot, r)
    requires forall q :: Served(s, q) ==> Served(StepBoot(s), q)
    requires s.log != [] ==> StepBoot(s).log != []
    ensures Followed(StepBoot(s), r)
  {
    hide Progress, AllFollowed, Served, StepBoot;
    NotYetOf(s, r);
    FollowedOf(s, r);
    RankGrows(s);
    OtherRank(s, r);
  }

  /** A step on behalf of somebody else does not pass a wait of r. */
  lemma OtherRank(s: State, r: Role)
    requires s.boot != AwaitingObject(Media) && !OwnStep(s.boot, r)
    ensures var n, n' := Rank(s.boot), Rank(StepBoot(s).boot);
            && (s.boot == Failed ==> StepBoot(s).boot == Failed)
            && (n' <= 30 ==>
                  && n <= 30 && (n <= Base(r) + 3 || Base(r) + 6 < n)
                  && (n <= Base(r) + 3 ==> n' <= Base(r) + 3))
            && (18 <= n' <= 30 && n < 18 ==> StepBoot(s).log != [])
  {}

  /** Steps that leave the bootstrap's own facts alone. */
  lemma SameFollowed(s: State, s': State)
    requires AllFollowed(s) && s'.boot == s.boot && (s.log != [] ==> s'.log != [])
    requires forall r :: SameFacts(s.subs.Get(r), s'.subs.Get(r))
    ensures AllFollowed(s')
  {
    hide AllFollowed, Rank;
    forall r ensures Followed(s', r) {
      FollowedOf(s, r);
      assert SameFacts(s.subs.Get(r), s'.subs.Get(r));
      forall q | Earlier(q, r) && Served(s, q) ensures Served(s', q) {
        assert SameFacts(s.subs.Get(q), s'.subs.Get(q));
      }
    }
    assert forall r :: Followed(s', r);
    Gather(s');
  }

  lemma Gather(s: State)
    requires forall r :: Followed(s, r)
    ensures AllFollowed(s)
  {}

  predicate SameFacts(sub: Sub, sub': Sub)
  {
    && sub'.id == sub.id && sub'.sent == sub.sent && sub'.verdict == sub.verdict && sub'.first == sub.first
    && (sub.reader != NotStarted ==> sub'.reader != NotStarted)
  }

  lemma FollowedStep(s: State, a: Action)
    requires Progress(s) && AllFollowed(s)
    ensures AllFollowed(Next(s, a))
  {
    hide Progress, AllFollowed, StepBoot, FailBoot, Receive, StepReader, StepStream, SameFacts;
    match a
    case BootStep =>
      forall r ensures Followed(StepBoot(s), r) { FollowedBoot(s, r); }
      Gather(StepBoot(s));
    case BootFail => FollowedFail(s);
    case ReqRecv(r, m) => FactsKept(s, r, m); SameFollowed(s, Receive(s, r, m));
    case ReqStep(r) => FactsKept(s, r, Other); SameFollowed(s, StepReader(s, r));
    case StreamStep(i) => if i < |s.streams| { StreamFacts(s, i); SameFollowed(s, StepStream(s, i)); }
    case _ => OtherFacts(s, a); SameFollowed(s, Next(s, a));
  }

  lemma FollowedFail(s: State)
    requires AllFollowed(s)
    ensures AllFollowed(FailBoot(s))
  {
    hide AllFollowed, Served;
    forall r ensures Followed(FailBoot(s), r) {
      FollowedOf(s, r);
      forall q | Served(s, q) ensures Served(FailBoot(s), q) { FailServed(s, q); }
    }
    Gather(FailBoot(s));
  }

  lemma FailServed(s: State, q: Role)
    requires Served(s, q)
    ensures Served(FailBoot(s), q)
  {}

  lemma FactsKept(s: State, q: Role, m: Message)
    ensures Receive(s, q, m).boot == StepReader(s, q).boot == s.boot
    ensures Receive(s, q, m).log == StepReader(s, q).log == s.log
    ensures forall r :: SameFacts(s.subs.Get(r), Receive(s, q, m).subs.Get(r))
    ensures forall r :: SameFacts(s.subs.Get(r), StepReader(s, q).subs.Get(r))
  {}

  lemma StreamFacts(s: State, i: nat)
    requires i < |s.streams|
    ensures StepStream(s, i).boot == s.boot && (s.log != [] ==> StepStream(s, i).log != [])
    ensures forall r :: SameFacts(s.subs.Get(r), StepStream(s, i).subs.Get(r))
  {
    hide StepStream;
    forall r ensures SameFacts(s.subs.Get(r), StepStream(s, i).subs.Get(r)) { StreamKeeps(s, i, r); }
    StreamKeeps(s, i, Catalog);
    LogGrows(s, i);
  }

  lemma LogGrows(s: State, i: nat)
    requires i < |s.streams|
    ensures s.log != [] ==> StepStream(s, i).log != []
  {}

  lemma OtherFacts(s: State, a: Action)
    requires a.ReqClose? || a.Open? || a.Read? || a.End? || a.BreakWrite?
    ensures Next(s, a).boot == s.boot && Next(s, a).log == s.log
    ensures forall r :: SameFacts(s.subs.Get(r), Next(s, a).subs.Get(r))
  {}

  lemma {:induction false} AlwaysFollowed(run: seq<Action>)
    ensures Progress(Exec(run)) && AllFollowed(Exec(run))
  {
    hide Next, Progress, AllFollowed;
    if run == [] {
      InitiallyFollowed();
    } else {
      var s := Exec(run[..|run| - 1]);
      AlwaysFollowed(run[..|run| - 1]);
      ProgressStep(s, run[|run| - 1]);
      FollowedStep(s, run[|run| - 1]);
    }
  }

  lemma InitiallyFollowed()
    ensures Progress(INITIAL) && AllFollowed(INITIAL)
  {}

  // ---------- how it ends ----------

  /** A received rejection ends the bootstrap, for every role. */
  lemma RejectionEnds(run: seq<Action>, r: Role)
    requires Exec(run).subs.Get(r).verdict == Some(Rejected)
    ensures Exec(run).boot == Failed
  {
    hide Exec, Progress;
    AlwaysFollowed(run);
    FollowedOf(Exec(run), r);
  }

  /** The bootstrap has succeeded only if all three subscriptions were sent and
      accepted, catalog and init delivered their first object, and the init
      segment is in the sink. */
  lemma ReadyMeansServed(run: seq<Action>)
    requires Exec(run).boot == Ready
    ensures var s := Exec(run);
            s.log != [] && forall r :: s.subs.Get(r).sent && s.subs.Get(r).reader != NotStarted && Served(s, r)
  {
    hide Exec, Progress, AllFollowed, Served;
    AlwaysFollowed(run);
    ReadyServed(Exec(run), Media);
    var s := Exec(run);
    forall r ensures s.subs.Get(r).sent && s.subs.Get(r).reader != NotStarted && Served(s, r) { ReadyServed(s, r); }
  }

  lemma ReadyServed(s: State, r: Role)
    requires AllFollowed(s) && s.boot == Ready
    ensures s.log != [] && s.subs.Get(r).sent && s.subs.Get(r).reader != NotStarted && Served(s, r)
  {
    hide AllFollowed;
    FollowedOf(s, r);
  }

  /** No request ID is handed out for a subscription before the earlier ones are
      served; none for media before the init segment is in the sink. */
  lemma OneAfterTheOther(run: seq<Action>, q: Role, r: Role)
    requires Earlier(q, r) && Exec(run).subs.Get(r).id != None
    ensures Served(Exec(run), q) && (r == Media ==> Exec(run).log != [])
  {
    hide Exec, Progress, AllFollowed, Served;
    AlwaysFollowed(run);
    FollowedOf(Exec(run), r);
  }

  /** Without a failure from outside, the bootstrap fails exactly by receiving a
      rejection. */
  lemma {:induction false} FailsByRejection(run: seq<Action>)
    requires BootFail !in run
    ensures Exec(run).boot == Failed <==> exists r :: Exec(run).subs.Get(r).verdict == Some(Rejected)
  {
    hide Next;
    if Exec(run).boot == Failed {
      FailedRejected(run);
    }
    forall r | Exec(run).subs.Get(r).verdict == Some(Rejected) ensures Exec(run).boot == Failed {
      RejectionEnds(run, r);
    }
  }

  lemma {:induction false} FailedRejected(run: seq<Action>)
    requires BootFail !in run && Exec(run).boot == Failed
    ensures exists r :: Exec(run).subs.Get(r).verdict == Some(Rejected)
  {
    hide Next;
    if run != [] {
      var n := |run| - 1;
      var s := Exec(run[..n]);
      if s.boot == Failed {
        FailedRejected(run[..n]);
        var r :| s.subs.Get(r).verdict == Some(Rejected);
        VerdictStays(s, run[n], r);
        assert Exec(run).subs.Get(r).verdict == Some(Rejected);
      } else {
        assert run[n] != BootFail;
        var r := FailingStep(s, run[n]);
      }
    }
  }

  /** A bootstrap that has failed does nothing any more. */
  lemma VerdictStays(s: State, a: Action, r: Role)
    requires s.boot == Failed
    ensures Next(s, a).subs.Get(r).verdict == s.subs.Get(r).verdict && Next(s, a).boot == Failed
  {
    hide StepStream, SameFacts, Receive, StepReader;
    match a
    case ReqRecv(q, m) => FactsKept(s, q, m); FactsOf(s, Receive(s, q, m), r);
    case ReqStep(q) => FactsKept(s, q, Other); FactsOf(s, StepReader(s, q), r);
    case StreamStep(i) => if i < |s.streams| { StreamFacts(s, i); FactsOf(s, StepStream(s, i), r); }
    case BootStep =>
    case BootFail =>
    case _ => OtherFacts(s, a); FactsOf(s, Next(s, a), r);
  }

  lemma FactsOf(s: State, s': State, r: Role)
    requires SameFacts(s.subs.Get(r), s'.subs.Get(r))
    ensures s'.subs.Get(r).verdict == s.subs.Get(r).verdict
  {}

  lemma FailingStep(s: State, a: Action) returns (r: Role)
    requires s.boot != Failed && Next(s, a).boot == Failed && a != BootFail
    ensures Next(s, a).subs.Get(r).verdict == Some(Rejected)
  {
    hide StepStream, Receive, StepReader, SameFacts;
    r := Catalog;
    match a
    case BootStep => r := if s.boot.AwaitingOK? then s.boot.r else Catalog;
    case ReqRecv(q, m) => FactsKept(s, q, m); assert false;
    case ReqStep(q) => FactsKept(s, q, Other); assert false;
    case StreamStep(i) => if i < |s.streams| { StreamFacts(s, i); } assert false;
    case _ => OtherFacts(s, a); assert false;
  }

  // ---------- it can always end ----------

  /** The bootstrap never hangs: timeouts, errors and its own steps alone bring
      it to an end from wherever it is, in at most four steps. */
  lemma BootstrapEnds(run: seq<Action>) returns (more: seq<Action>)
    ensures |more| <= 4 && forall a :: a in more ==> a == BootStep || a == BootFail
    ensures Exec(run + more).boot == Ready || Exec(run + more).boot == Failed
  {
    hide Exec, Progress;
    AlwaysFollowed(run);
    more := [];
    assert run + more == run;
    var k := 0;
    while k < 4 && !Over(Exec(run + more).boot)
      invariant 0 <= k <= 4 && |more| == k
      invariant forall a :: a in more ==> a == BootStep || a == BootFail
      invariant Over(Exec(run + more).boot) || Distance(Exec(run + more).boot) <= 4 - k
      invariant Progress(Exec(run + more))
    {
      var s := Exec(run + more);
      var a := if CanFail(s.boot) then BootFail else BootStep;
      Closer(s, a);
      ProgressStep(s, a);
      ExecMore(run + more, a);
      assert run + more + [a] == run + (more + [a]);
      more := more + [a];
      k := k + 1;
    }
  }

  predicate Over(b: BootPc) { b == Ready || b == Failed }

  /** Where the source can return an error of its own: sending, waiting, parsing
      the catalog, writing the init segment. */
  predicate CanFail(b: BootPc)
  {
    b.Sending? || b.AwaitingOK? || b.AwaitingObject? || b.ParsingCatalog? || b.WritingInit?
  }

  /** It fails exactly there, and leaves everything as it is. */
  lemma FailsExactlyThere(s: State)
    ensures Next(s, BootFail) == if CanFail(s.boot) then s.(boot := Failed) else s
  {}

  /** Own steps to the next such place, and one to fail there. */
  function Distance(b: BootPc): nat
  {
    match b
    case CountingInit(_) => 4
    case Start(_) => 3
    case Registering(_) => 2
    case Spawning(_) => 2
    case _ => 1
  }

  lemma Closer(s: State, a: Action)
    requires Progress(s) && !Over(s.boot) && a == if CanFail(s.boot) then BootFail else BootStep
    ensures Over(Next(s, a).boot) || Distance(Next(s, a).boot) < Distance(s.boot)
  {
    hide Progress;
    if s.boot.Registering? { NotYetOf(s, s.boot.r); }
  }
}
