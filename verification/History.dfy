// The registry of a session as a history of its three operations, and what the
// laws about histories say of every run.
module History {
  import opened Bytes
  import opened Registry
  import opened Session
  import opened Invariants

  /** The registry operation that an action performs in s, if it performs one. */
  function OpOf(s: State, a: Action): (ops: seq<Op<Role>>)
    ensures |ops| <= 1
  {
    match a
    case BootStep => BootOp(s)
    case ReqStep(r) =>
      if s.subs.Get(r).reader.Binding? then [DoBind(r, s.subs.Get(r).reader.alias)] else []
    case _ => []
  }

  function BootOp(s: State): (ops: seq<Op<Role>>)
    ensures |ops| <= 1
  {
    match s.boot
    case Start(_) => [DoAlloc]
    case Registering(r) => if s.subs.Get(r).id == None then [] else [DoRegister(s.subs.Get(r).id.value, r)]
    case _ => []
  }

  /** The registry operations of a run. */
  function Ops(run: seq<Action>): seq<Op<Role>>
  {
    if run == [] then []
    else
      var front := run[..|run| - 1];
      Ops(front) + OpOf(Exec(front), run[|run| - 1])
  }

  // ---------- a session uses the counter ----------

  /** How many request IDs have been handed out at most. */
  function Stage(b: BootPc): nat
  {
    match b
    case Start(r) => RoleStage(r)
    case Registering(r) => RoleStage(r) + 1
    case Sending(r) => RoleStage(r) + 1
    case Spawning(r) => RoleStage(r) + 1
    case AwaitingOK(r) => RoleStage(r) + 1
    case AwaitingObject(r) => RoleStage(r) + 1
    case ParsingCatalog => 1
    case WritingInit(_) => 2
    case CountingInit(_) => 2
    case Ready => 3
    case Failed => 3
  }

  function RoleStage(r: Role): nat
  {
    match r case Catalog => 0 case Init => 1 case Media => 2
  }

  /** The registry is what the history makes it; one more request ID has been
      handed out than registered just while a registration is due, and then it
      is that subscription's own. */
  ghost predicate Kept(s: State, ops: seq<Op<Role>>)
  {
    var ids, n := Allocated(ops), |Registrations(ops)|;
    && s.reg == Replay(ops) && FromCounter(ops)
    && |ids| == n + (if s.boot.Registering? then 1 else 0) && |ids| <= Stage(s.boot)
    && (s.boot.Registering? ==> s.subs.Get(s.boot.r).id == Some(ids[n]))
  }

  lemma AddOp(ops: seq<Op<Role>>, op: Op<Role>)
    ensures Replay(ops + [op]) == Do(Replay(ops), op)
    ensures Allocated(ops + [op]) == Allocated(ops) + (if op.DoAlloc? then [Replay(ops).nextID] else [])
    ensures Registrations(ops + [op]) == Registrations(ops) + (if op.DoRegister? then [(op.id, op.sub)] else [])
    ensures FromCounter(ops + [op]) <==>
            FromCounter(ops) && (op.DoRegister? ==>
              |Registrations(ops)| < |Allocated(ops)| && op.id == Allocated(ops)[|Registrations(ops)|])
  {
    hide Do;
    assert (ops + [op])[..|ops|] == ops;
  }

  lemma KeptStep(s: State, a: Action, ops: seq<Op<Role>>)
    requires Progress(s) && Kept(s, ops)
    ensures Kept(Next(s, a), ops + OpOf(s, a))
  {
    hide Progress, Kept, StepBoot, FailBoot, Receive, StepReader, StepStream, OpOf;
    match a
    case BootStep => assert OpOf(s, a) == BootOp(s) by { OpOfIs(s, a); } KeptBoot(s, ops);
    case ReqStep(r) => KeptReader(s, r, ops);
    case BootFail => OpOfIs(s, a); KeptFail(s, ops);
    case StreamStep(i) => OpOfIs(s, a); if i < |s.streams| { KeptStream(s, i, ops); } else { assert ops + [] == ops; }
    case _ => OpOfIs(s, a); KeptOther(s, a, ops);
  }

  lemma OpOfIs(s: State, a: Action)
    ensures OpOf(s, a) == if a.BootStep? then BootOp(s) else if a.ReqStep? then OpOf(s, a) else []
  {}

  lemma KeptBoot(s: State, ops: seq<Op<Role>>)
    requires Progress(s) && Kept(s, ops)
    ensures Kept(StepBoot(s), ops + BootOp(s))
  {
    hide Progress, Replay, Allocated, Registrations, FromCounter;
    assert s.boot != AwaitingObject(Media) by { NoMediaObject(s); }
    if BootOp(s) == [] {
      assert ops + [] == ops;
    } else {
      AddOp(ops, BootOp(s)[0]);
    }
  }

  lemma NoMediaObject(s: State)
    requires Progress(s)
    ensures s.boot != AwaitingObject(Media)
  {}

  lemma KeptFail(s: State, ops: seq<Op<Role>>)
    requires Kept(s, ops)
    ensures Kept(FailBoot(s), ops + [])
  {
    hide Replay, Allocated, Registrations, FromCounter;
    assert ops + [] == ops;
  }

  /** Steps that leave the bootstrap, the registry and the request IDs alone. */
  lemma KeptSame(s: State, s': State, ops: seq<Op<Role>>)
    requires Kept(s, ops) && s'.boot == s.boot && s'.reg == s.reg
    requires forall r :: s'.subs.Get(r).id == s.subs.Get(r).id
    ensures Kept(s', ops + [])
  {
    hide Replay, Allocated, Registrations, FromCounter;
    assert ops + [] == ops;
  }

  lemma KeptStream(s: State, i: nat, ops: seq<Op<Role>>)
    requires Kept(s, ops) && i < |s.streams|
    ensures Kept(StepStream(s, i), ops + [])
  {
    hide Kept, StepStream;
    forall r ensures StepStream(s, i).subs.Get(r).id == s.subs.Get(r).id { StreamKeeps(s, i, r); }
    StreamKeeps(s, i, Catalog);
    KeptSame(s, StepStream(s, i), ops);
  }

  lemma KeptReader(s: State, r: Role, ops: seq<Op<Role>>)
    requires Kept(s, ops)
    ensures Kept(StepReader(s, r), ops + OpOf(s, ReqStep(r)))
  {
    hide Replay, Allocated, Registrations, FromCounter;
    var sub := s.subs.Get(r);
    if sub.reader.Binding? {
      AddOp(ops, DoBind(r, sub.reader.alias));
    } else {
      assert ops + [] == ops;
    }
  }

  lemma KeptOther(s: State, a: Action, ops: seq<Op<Role>>)
    requires Kept(s, ops) && !a.BootStep? && !a.BootFail? && !a.ReqStep? && !a.StreamStep?
    ensures Kept(Next(s, a), ops + [])
  {
    hide Kept;
    KeptSame(s, Next(s, a), ops);
  }

  lemma {:induction false} AlwaysKept(run: seq<Action>)
    ensures Progress(Exec(run)) && Kept(Exec(run), Ops(run))
  {
    hide Next, Progress, Kept, OpOf;
    if run == [] {
      InitiallyKept();
    } else {
      var front := run[..|run| - 1];
      AlwaysKept(front);
      ProgressStep(Exec(front), run[|run| - 1]);
      KeptStep(Exec(front), run[|run| - 1], Ops(front));
    }
  }

  lemma InitiallyKept()
    ensures Progress(INITIAL) && Kept(INITIAL, [])
  {}

  /** In every run the registry is the result of its operations, every
      registration uses the counter's next ID, and there are at most three. */
  lemma RegistryIsHistory(run: seq<Action>)
    ensures Exec(run).reg == Replay(Ops(run)) && FromCounter(Ops(run)) && |Allocated(Ops(run))| <= 3
  {
    hide Exec, Ops, Progress, Replay, Allocated, FromCounter, Registrations;
    AlwaysKept(run);
  }

  // ---------- positions in a run and in its history ----------

  lemma {:induction false} OpsPrefix(run: seq<Action>, m: nat)
    requires m <= |run|
    ensures |Ops(run[..m])| <= |Ops(run)| && Ops(run)[..|Ops(run[..m])|] == Ops(run[..m])
    decreases |run|
  {
    hide Exec, OpOf;
    if m == |run| {
      assert run[..m] == run;
    } else {
      OpsPrefix(run[..|run| - 1], m);
      assert run[..|run| - 1][..m] == run[..m];
    }
  }

  lemma OpsGrow(run: seq<Action>, l: nat, m: nat)
    requires l <= m <= |run|
    ensures |Ops(run[..l])| <= |Ops(run[..m])|
  {
    hide Ops;
    OpsPrefix(run[..m], l);
    assert run[..m][..l] == run[..l];
  }

  /** Step m performs the operation at this position of the history. */
  lemma OpAt(run: seq<Action>, m: nat)
    requires m < |run| && OpOf(Exec(run[..m]), run[m]) != []
    ensures var n := |Ops(run[..m])|; n < |Ops(run)| && [Ops(run)[n]] == OpOf(Exec(run[..m]), run[m])
  {
    hide Exec, OpOf;
    OpsPrefix(run, m + 1);
    assert run[..m + 1][..m] == run[..m];
  }

  /** Every operation of the history is performed by some step. */
  lemma {:induction false} StepOf(run: seq<Action>, n: nat) returns (m: nat)
    requires n < |Ops(run)|
    ensures m < |run| && |Ops(run[..m])| == n && OpOf(Exec(run[..m]), run[m]) == [Ops(run)[n]]
    decreases |run|
  {
    hide Exec, OpOf;
    var front := run[..|run| - 1];
    if n < |Ops(front)| {
      m := StepOf(front, n);
      assert front[..m] == run[..m];
    } else {
      m := |run| - 1;
    }
  }

  // ---------- when routing is stable ----------

  /** Step j of the run is the first one that claims a, for r. */
  ghost predicate FirstClaimAt(run: seq<Action>, j: nat, a: uint64, r: Role)
    requires j < |run|
  {
    && ClaimsAt(run, j, a, r)
    && forall i, q :: 0 <= i < j ==> !ClaimsAt(run, i, a, q)
  }

  predicate ClaimsAt(run: seq<Action>, j: nat, a: uint64, r: Role)
    requires j < |run|
  {
    var ops := OpOf(Exec(run[..j]), run[j]);
    ops != [] && Claims(ops[0], a, r)
  }

  /** Step m binds a for a subscription other than r. */
  predicate BindsOther(run: seq<Action>, m: nat, a: uint64, r: Role)
    requires m < |run|
  {
    run[m].ReqStep? && run[m].r != r && Exec(run[..m]).subs.Get(run[m].r).reader == Binding(a)
  }

  /** When routing is stable, for every run and any relay: from its first claim
      on a number is answered with its claimant, exactly if no request reader of
      another subscription ever binds it. */
  lemma RoutingStableIff(run: seq<Action>, j: nat, a: uint64, r: Role)
    requires j < |run| && FirstClaimAt(run, j, a, r)
    ensures (forall m :: j < m <= |run| ==> Lookup(Exec(run[..m]).reg, a) == Some(r)) <==>
            (forall m :: j < m < |run| ==> !BindsOther(run, m, a, r))
  {
    hide Exec, Ops, OpOf, Replay, FromCounter, Allocated, Lookup, FirstClaim, AnsweredFrom, Claims, FirstClaimAt,
         BindsOther;
    var ops, k := Ops(run), |Ops(run[..j])|;
    ClaimIsFirst(run, j, a, r);
    RegistryIsHistory(run);
    StableIff(ops, k, a, r);
    AnswersAgree(run, j, a, r);
    BindsAgree(run, j, a, r);
  }

  lemma ClaimIsFirst(run: seq<Action>, j: nat, a: uint64, r: Role)
    requires j < |run| && FirstClaimAt(run, j, a, r)
    ensures FirstClaim(Ops(run), |Ops(run[..j])|, a, r)
  {
    hide Exec, Ops, OpOf, Claims;
    var ops, k := Ops(run), |Ops(run[..j])|;
    OpAt(run, j);
    assert ClaimsAt(run, j, a, r);
    forall i, q | 0 <= i < k ensures !Claims(ops[i], a, q) {
      var m := StepOf(run, i);
      if m >= j { OpsGrow(run, j, m); }
      assert !ClaimsAt(run, m, a, q);
    }
  }

  /** The answers along the run are the answers along the history. */
  lemma AnswersAgree(run: seq<Action>, j: nat, a: uint64, r: Role)
    requires j < |run| && FirstClaimAt(run, j, a, r)
    ensures AnsweredFrom(Ops(run), |Ops(run[..j])|, a, r) <==>
            forall m :: j < m <= |run| ==> Lookup(Exec(run[..m]).reg, a) == Some(r)
  {
    hide Exec, Ops, OpOf, Replay, FromCounter, Allocated, Lookup, Claims;
    var ops, k := Ops(run), |Ops(run[..j])|;
    OpAt(run, j);
    assert ClaimsAt(run, j, a, r);
    forall m | j < m <= |run|
      ensures k < |Ops(run[..m])| <= |ops| && Exec(run[..m]).reg == Replay(ops[..|Ops(run[..m])|])
    {
      OpsPrefix(run, m);
      RegistryIsHistory(run[..m]);
      assert run[..m][..j] == run[..j] && run[..m][j] == run[j];
      OpAt(run[..m], j);
    }
    if forall m :: j < m <= |run| ==> Lookup(Exec(run[..m]).reg, a) == Some(r) {
      forall n | k < n <= |ops| ensures Lookup(Replay(ops[..n]), a) == Some(r) {
        var m := AfterStep(run, n);
        if m <= j { OpsGrow(run, m, j); }
        assert Lookup(Exec(run[..m]).reg, a) == Some(r);
      }
    }
  }

  /** Some prefix of the run has performed exactly n operations. */
  lemma AfterStep(run: seq<Action>, n: nat) returns (m: nat)
    requires n <= |Ops(run)|
    ensures m <= |run| && |Ops(run[..m])| == n
  {
    hide Exec, OpOf;
    if n == |Ops(run)| {
      m := |run|;
      assert run[..m] == run;
    } else {
      m := StepOf(run, n);
    }
  }

  lemma BindsAgree(run: seq<Action>, j: nat, a: uint64, r: Role)
    requires j < |run| && FirstClaimAt(run, j, a, r)
    ensures var ops, k := Ops(run), |Ops(run[..j])|;
            (forall n :: k < n < |ops| && ops[n].DoBind? && ops[n].alias == a ==> ops[n].sub == r) <==>
            (forall m :: j < m < |run| ==> !BindsOther(run, m, a, r))
  {
    hide Exec, Ops, OpOf, Claims;
    var ops, k := Ops(run), |Ops(run[..j])|;
    OpAt(run, j);
    assert ClaimsAt(run, j, a, r);
    forall m | j < m < |run| && BindsOther(run, m, a, r)
      ensures exists n :: k < n < |ops| && ops[n].DoBind? && ops[n].alias == a && ops[n].sub != r
    {
      BindOp(Exec(run[..m]), run[m]);
      OpAt(run, m);
      assert run[..m][..j] == run[..j] && run[..m][j] == run[j];
      OpAt(run[..m], j);
      var n := |Ops(run[..m])|;
      assert k < n < |ops| && ops[n] == DoBind(run[m].r, a);
    }
    forall n | k < n < |ops| && ops[n].DoBind? && ops[n].alias == a && ops[n].sub != r
      ensures exists m :: j < m < |run| && BindsOther(run, m, a, r)
    {
      var m := StepOf(run, n);
      BindOp(Exec(run[..m]), run[m]);
      if m <= j { OpsGrow(run, m, j); }
      assert BindsOther(run, m, a, r);
    }
  }

  lemma BindOp(s: State, a: Action)
    ensures OpOf(s, a) != [] && OpOf(s, a)[0].DoBind? <==> a.ReqStep? && s.subs.Get(a.r).reader.Binding?
    ensures a.ReqStep? && s.subs.Get(a.r).reader.Binding? ==> OpOf(s, a) == [DoBind(a.r, s.subs.Get(a.r).reader.alias)]
  {}
}
