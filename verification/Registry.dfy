// The subscription registry: request IDs, the two maps, and the lookup that
// routes a subgroup stream.
module Registry {
  import opened Bytes

  // ---------- the registry on values ----------

  datatype Reg<S> = Reg(nextID: uint64, byRequest: map<uint64, S>, byAlias: map<uint64, S>)

  function Empty<S>(): Reg<S> { Reg(0, map[], map[]) }

  function Alloc<S>(reg: Reg<S>): Reg<S>
  {
    reg.(nextID := Add64(reg.nextID, 2))
  }

  function Register<S>(reg: Reg<S>, id: uint64, sub: S): Reg<S>
  {
    reg.(byRequest := reg.byRequest[id := sub])
  }

  function Bind<S>(reg: Reg<S>, sub: S, alias: uint64): Reg<S>
  {
    reg.(byAlias := reg.byAlias[alias := sub])
  }

  /** The alias map first, the request map second. */
  function Lookup<S>(reg: Reg<S>, alias: uint64): Option<S>
  {
    if alias in reg.byAlias then Some(reg.byAlias[alias])
    else if alias in reg.byRequest then Some(reg.byRequest[alias])
    else None
  }

  // ---------- the code ----------

  datatype Role = Catalog | Init | Media

  /** What arrives on okCh. */
  datatype Verdict = Accepted(alias: uint64) | Rejected

  /** Channels of capacity 1 are options. A media subscription has no
      firstObjCh; nothing is ever sent to it. */
  class TrackSubscription {
    const requestID: uint64
    const trackName: string
    const role: Role
    var okCh: Option<Verdict>
    var firstObjCh: Option<seq<byte>>
    var gotFirst: bool

    constructor (requestID: uint64, trackName: string, role: Role)
      ensures this.requestID == requestID && this.trackName == trackName && this.role == role
      ensures okCh == None && firstObjCh == None && !gotFirst
    {
      this.requestID := requestID;
      this.trackName := trackName;
      this.role := role;
      this.okCh := None;
      this.firstObjCh := None;
      this.gotFirst := false;
    }
  }

  /** A send that gives up when the channel is full. */
  function Offer<T>(ch: Option<T>, x: T): Option<T>
  {
    if ch == None then Some(x) else ch
  }

  class SubscriptionRegistry {
    var byRequest: map<uint64, TrackSubscription>
    var byAlias: map<uint64, TrackSubscription>
    var nextID: uint64

    constructor ()
      ensures Value() == Empty()
    {
      byRequest := map[];
      byAlias := map[];
      nextID := 0;
    }

    function Value(): Reg<TrackSubscription>
      reads this
    {
      Reg(nextID, byRequest, byAlias)
    }

    method AllocRequestID() returns (id: uint64)
      modifies this
      ensures id == old(nextID) && Value() == Alloc(old(Value()))
    {
      id := nextID;
      nextID := Add64(nextID, 2);
    }

    method RegisterSub(sub: TrackSubscription)
      modifies this
      ensures Value() == Register(old(Value()), sub.requestID, sub)
    {
      byRequest := byRequest[sub.requestID := sub];
    }

    method BindAlias(sub: TrackSubscription, alias: uint64)
      modifies this
      ensures Value() == Bind(old(Value()), sub, alias)
    {
      byAlias := byAlias[alias := sub];
    }

    /** Also whether the answer comes from the request map. */
    method LookupDelivery(trackAlias: uint64) returns (sub: TrackSubscription?, pending: bool)
      ensures Lookup(Value(), trackAlias) == if sub == null then None else Some(sub)
      ensures pending <==> sub != null && trackAlias !in byAlias
    {
      if trackAlias in byAlias {
        return byAlias[trackAlias], false;
      }
      if trackAlias in byRequest {
        return byRequest[trackAlias], true;
      }
      return null, false;
    }
  }

  // ---------- histories ----------

  datatype Op<S> = DoAlloc | DoRegister(id: uint64, sub: S) | DoBind(sub: S, alias: uint64)

  function Do<S>(reg: Reg<S>, op: Op<S>): Reg<S>
  {
    match op
    case DoAlloc => Alloc(reg)
    case DoRegister(id, sub) => Register(reg, id, sub)
    case DoBind(sub, alias) => Bind(reg, sub, alias)
  }

  function Replay<S>(ops: seq<Op<S>>): Reg<S>
  {
    if ops == [] then Empty() else Do(Replay(ops[..|ops| - 1]), ops[|ops| - 1])
  }

  /** The request IDs handed out, in order. */
  function Allocated<S>(ops: seq<Op<S>>): seq<uint64>
  {
    if ops == [] then []
    else
      var front := ops[..|ops| - 1];
      Allocated(front) + (if ops[|ops| - 1].DoAlloc? then [Replay(front).nextID] else [])
  }

  /** The k-th request ID is 2k, until the counter wraps. */
  lemma {:induction false} AllocatedIDs<S>(ops: seq<Op<S>>)
    ensures Replay(ops).nextID == 2 * |Allocated(ops)| % TWO_64
    ensures forall k :: 0 <= k < |Allocated(ops)| ==> Allocated(ops)[k] == 2 * k % TWO_64
  {
    if ops != [] {
      var front := ops[..|ops| - 1];
      AllocatedIDs(front);
      AddWrapped(2 * |Allocated(front)|, 2);
    }
  }

  /** All request IDs are even. Two of them are equal exactly when a multiple of
      2^63 allocations lies between them; so below that they are distinct. */
  lemma RequestIDsDistinct<S>(ops: seq<Op<S>>, j: nat, k: nat)
    requires j < k < |Allocated(ops)|
    ensures Allocated(ops)[j] % 2 == 0
    ensures Allocated(ops)[j] == Allocated(ops)[k] <==> (k - j) % TWO_63 == 0
    ensures k - j < TWO_63 ==> Allocated(ops)[j] != Allocated(ops)[k]
  {
    AllocatedIDs(ops);
    HalfRange(j, k);
  }

  const TWO_63: nat := 0x8000_0000_0000_0000

  lemma HalfRange(j: nat, k: nat)
    requires j < k
    ensures 2 * j % TWO_64 % 2 == 0
    ensures 2 * j % TWO_64 == 2 * k % TWO_64 <==> (k - j) % TWO_63 == 0
  {
    DoubleMod(j);
    DoubleMod(k);
    SameRemainder(j, k);
  }

  lemma DoubleMod(j: nat)
    ensures 2 * j % TWO_64 == 2 * (j % TWO_63)
  {}

  lemma SameRemainder(j: nat, k: nat)
    requires j < k
    ensures j % TWO_63 == k % TWO_63 <==> (k - j) % TWO_63 == 0
  {
    var a, b := j / TWO_63, k / TWO_63;
    assert j == TWO_63 * a + j % TWO_63 && k == TWO_63 * b + k % TWO_63;
  }

  /** op says that alias (or request ID) a belongs to sub. */
  predicate Claims<S(==)>(op: Op<S>, a: uint64, sub: S)
  {
    op == DoRegister(a, sub) || op == DoBind(sub, a)
  }

  /** No number is claimed for two subscriptions. This is what distinct request
      IDs together with the rule alias = request ID amount to. */
  ghost predicate OneOwner<S(!new)>(ops: seq<Op<S>>)
  {
    forall j, k, a, s, t :: 0 <= j < |ops| && 0 <= k < |ops| && Claims(ops[j], a, s) && Claims(ops[k], a, t) ==> s == t
  }

  // ---------- histories that use the counter ----------

  /** The registrations so far, in order. */
  function Registrations<S>(ops: seq<Op<S>>): (rs: seq<(uint64, S)>)
    ensures |rs| <= |ops|
  {
    if ops == [] then []
    else
      var op := ops[|ops| - 1];
      Registrations(ops[..|ops| - 1]) + (if op.DoRegister? then [(op.id, op.sub)] else [])
  }

  /** Every registration uses the next request ID that was handed out. */
  predicate FromCounter<S>(ops: seq<Op<S>>)
  {
    ops != [] ==>
      var front, op := ops[..|ops| - 1], ops[|ops| - 1];
      var n := |Registrations(front)|;
      && FromCounter(front)
      && (op.DoRegister? ==> n < |Allocated(front)| && op.id == Allocated(front)[n])
  }

  /** The rule alias = request ID: only the ID of a registration is bound to it. */
  predicate BindsOwnID<S(==)>(ops: seq<Op<S>>)
  {
    ops != [] ==>
      var front, op := ops[..|ops| - 1], ops[|ops| - 1];
      BindsOwnID(front) && (op.DoBind? ==> (op.alias, op.sub) in Registrations(front))
  }

  /** The i-th registration has request ID 2i. */
  lemma {:induction false} RegisteredIDs<S>(ops: seq<Op<S>>)
    requires FromCounter(ops)
    ensures |Registrations(ops)| <= |Allocated(ops)|
    ensures forall i :: 0 <= i < |Registrations(ops)| ==> Registrations(ops)[i].0 == 2 * i % TWO_64
  {
    if ops != [] {
      var front := ops[..|ops| - 1];
      RegisteredIDs(front);
      AllocatedIDs(front);
    }
  }

  lemma {:induction false} ClaimIsRegistered<S(!new)>(ops: seq<Op<S>>, k: nat, a: uint64, sub: S)
    requires BindsOwnID(ops) && k < |ops| && Claims(ops[k], a, sub)
    ensures (a, sub) in Registrations(ops)
  {
    var n := |ops| - 1;
    if k < n {
      ClaimIsRegistered(ops[..n], k, a, sub);
    }
  }

  /** Request IDs from the counter together with the rule alias = request ID:
      every number has one owner. */
  lemma AliasIsRequestID<S(!new)>(ops: seq<Op<S>>)
    requires FromCounter(ops) && BindsOwnID(ops) && |Allocated(ops)| <= TWO_63
    ensures OneOwner(ops)
  {
    hide FromCounter, BindsOwnID, Registrations, Allocated;
    RegisteredIDs(ops);
    forall j, k, a, s, t | 0 <= j < |ops| && 0 <= k < |ops| && Claims(ops[j], a, s) && Claims(ops[k], a, t)
      ensures s == t
    {
      ClaimIsRegistered(ops, j, a, s);
      ClaimIsRegistered(ops, k, a, t);
    }
  }

  /** Then a stream is routed to the owner of its alias from registration
      onward, whether the alias is bound yet or not. */
  lemma {:induction false} RoutedFromRegistration<S(!new)>(ops: seq<Op<S>>, k: nat, a: uint64, sub: S)
    requires OneOwner(ops) && k < |ops| && Claims(ops[k], a, sub)
    ensures Lookup(Replay(ops), a) == Some(sub)
  {
    hide Lookup;
    var n := |ops| - 1;
    var front := ops[..n];
    LookupStep(Replay(front), ops[n], a);
    if k < n {
      RoutedFromRegistration(front, k, a, sub);
      assert Claims(ops[k], a, sub);
      match ops[n]
      case DoAlloc =>
      case DoRegister(_, t) => assert t != sub ==> !Claims(ops[n], a, t);
      case DoBind(t, _) => assert t != sub ==> !Claims(ops[n], a, t);
    } else if a in Replay(front).byAlias {
      var j := AliasWasBound(front, a);
      assert Claims(ops[j], a, Replay(front).byAlias[a]);
      LookupBound(Replay(front), a);
    }
  }

  lemma LookupBound<S>(reg: Reg<S>, a: uint64)
    requires a in reg.byAlias
    ensures Lookup(reg, a) == Some(reg.byAlias[a])
  {}

  lemma {:induction false} AliasWasBound<S>(ops: seq<Op<S>>, a: uint64) returns (j: nat)
    requires a in Replay(ops).byAlias
    ensures j < |ops| && ops[j] == DoBind(Replay(ops).byAlias[a], a)
  {
    j := |ops| - 1;
    if ops[j] != DoBind(Replay(ops).byAlias[a], a) { j := AliasWasBound(ops[..j], a); }
  }

  /** A number that nothing has claimed is answered with nothing. */
  lemma {:induction false} UnclaimedIsUnmapped<S(!new)>(ops: seq<Op<S>>, a: uint64)
    requires forall k, s :: 0 <= k < |ops| ==> !Claims(ops[k], a, s)
    ensures Lookup(Replay(ops), a) == None
  {
    if ops != [] {
      var n := |ops| - 1;
      UnclaimedIsUnmapped(ops[..n], a);
      LookupStep(Replay(ops[..n]), ops[n], a);
      match ops[n]
      case DoAlloc =>
      case DoRegister(_, s) => assert !Claims(ops[n], a, s);
      case DoBind(s, _) => assert !Claims(ops[n], a, s);
    }
  }

  /** Only an operation that claims a can change the answer for a, and a new
      answer is the claimant. */
  lemma LookupStep<S>(reg: Reg<S>, op: Op<S>, a: uint64)
    ensures match op
            case DoAlloc => Lookup(Do(reg, op), a) == Lookup(reg, a)
            case DoRegister(id, s) =>
              Lookup(Do(reg, op), a) == if id == a && a !in reg.byAlias then Some(s) else Lookup(reg, a)
            case DoBind(s, alias) =>
              Lookup(Do(reg, op), a) == if alias == a then Some(s) else Lookup(reg, a)
  {}

  /** If aliases are merely distinct, an answer is final once the alias is bound. */
  ghost predicate DistinctAliases<S(!new)>(ops: seq<Op<S>>)
  {
    forall j, k, a, s, t :: 0 <= j < |ops| && 0 <= k < |ops| ==>
      ops[j] == DoBind(s, a) && ops[k] == DoBind(t, a) ==> s == t
  }

  lemma {:induction false} BoundIsFinal<S(!new)>(ops: seq<Op<S>>, k: nat)
    requires DistinctAliases(ops) && k < |ops| && ops[k].DoBind?
    ensures Lookup(Replay(ops), ops[k].alias) == Some(ops[k].sub)
    ensures ops[k].alias in Replay(ops).byAlias
  {
    var n := |ops| - 1;
    var front := ops[..n];
    if k < n {
      assert forall j :: 0 <= j < n ==> ops[j] == front[j];
      BoundIsFinal(front, k);
      BindStays(Replay(front), ops[n], ops[k].alias);
      assert ops[k] == DoBind(ops[k].sub, ops[k].alias);
    }
  }

  lemma BindStays<S>(reg: Reg<S>, op: Op<S>, a: uint64)
    requires a in reg.byAlias
    ensures a in Do(reg, op).byAlias
    ensures Do(reg, op).byAlias[a] == if op.DoBind? && op.alias == a then op.sub else reg.byAlias[a]
  {}

  // ---------- arbitrary aliases ----------

  /** An operation before the n-th has bound a. */
  predicate BoundBefore<S>(ops: seq<Op<S>>, n: nat, a: uint64)
    requires n <= |ops|
  {
    exists j :: 0 <= j < n && ops[j].DoBind? && ops[j].alias == a
  }

  lemma {:induction false} BoundIff<S>(ops: seq<Op<S>>, n: nat, a: uint64)
    requires n <= |ops|
    ensures a in Replay(ops[..n]).byAlias <==> BoundBefore(ops, n, a)
    decreases n
  {
    if n > 0 {
      BoundIff(ops, n - 1, a);
      assert ops[..n][..n - 1] == ops[..n - 1];
      assert BoundBefore(ops, n - 1, a) ==> BoundBefore(ops, n, a);
      assert ops[n - 1].DoBind? && ops[n - 1].alias == a ==> BoundBefore(ops, n, a);
    }
  }

  lemma {:induction false} RegistrationsGrow<S>(ops: seq<Op<S>>, j: nat, k: nat)
    requires j < k <= |ops| && ops[j].DoRegister?
    ensures |Registrations(ops[..j])| < |Registrations(ops[..k])|
    decreases k
  {
    assert ops[..k][..k - 1] == ops[..k - 1];
    if j < k - 1 { RegistrationsGrow(ops, j, k - 1); }
  }

  lemma {:induction false} RegisterID<S>(ops: seq<Op<S>>, k: nat)
    requires FromCounter(ops) && k < |ops| && ops[k].DoRegister?
    ensures ops[k].id == 2 * |Registrations(ops[..k])| % TWO_64
    ensures |Registrations(ops[..k])| < |Allocated(ops)|
    decreases |ops|
  {
    var n := |ops| - 1;
    if k < n {
      RegisterID(ops[..n], k);
      assert ops[..n][..k] == ops[..k];
    } else {
      AllocatedIDs(ops[..n]);
    }
  }

  /** No two registrations have the same ID. */
  lemma RegistersOnce<S>(ops: seq<Op<S>>, j: nat, k: nat)
    requires FromCounter(ops) && |Allocated(ops)| <= TWO_63
    requires j < k < |ops| && ops[j].DoRegister? && ops[k].DoRegister?
    ensures ops[j].id != ops[k].id
  {
    hide FromCounter, Registrations, Allocated;
    RegisterID(ops, j);
    RegisterID(ops, k);
    RegistrationsGrow(ops, j, k);
  }

  /** The n-th operation does not take a away from sub. */
  predicate Keeps<S(==)>(ops: seq<Op<S>>, n: nat, a: uint64, sub: S)
    requires n < |ops|
  {
    match ops[n]
    case DoAlloc => true
    case DoRegister(id, t) => id != a || t == sub || BoundBefore(ops, n, a)
    case DoBind(t, alias) => alias != a || t == sub
  }

  lemma StepKeeps<S(!new)>(ops: seq<Op<S>>, n: nat, a: uint64, sub: S)
    requires n < |ops| && Lookup(Replay(ops[..n]), a) == Some(sub)
    ensures Lookup(Replay(ops[..n + 1]), a) == Some(sub) <==> Keeps(ops, n, a, sub)
  {
    hide Lookup, BoundBefore;
    assert ops[..n + 1][..n] == ops[..n];
    LookupStep(Replay(ops[..n]), ops[n], a);
    BoundIff(ops, n, a);
  }

  /** sub is the first to claim a, at k. */
  ghost predicate FirstClaim<S(!new)>(ops: seq<Op<S>>, k: nat, a: uint64, sub: S)
  {
    k < |ops| && Claims(ops[k], a, sub) && forall j, t :: 0 <= j < k ==> !Claims(ops[j], a, t)
  }

  lemma FirstAnswer<S(!new)>(ops: seq<Op<S>>, k: nat, a: uint64, sub: S)
    requires FirstClaim(ops, k, a, sub)
    ensures Lookup(Replay(ops[..k + 1]), a) == Some(sub)
  {
    hide Lookup, BoundBefore;
    assert ops[..k + 1][..k] == ops[..k];
    LookupStep(Replay(ops[..k]), ops[k], a);
    BoundIff(ops, k, a);
    assert !BoundBefore(ops, k, a) by { NotBound(ops, k, a, sub); }
  }

  lemma NotBound<S(!new)>(ops: seq<Op<S>>, k: nat, a: uint64, sub: S)
    requires FirstClaim(ops, k, a, sub)
    ensures !BoundBefore(ops, k, a)
  {
    forall j | 0 <= j < k && ops[j].DoBind? ensures ops[j].alias != a {
      assert !Claims(ops[j], a, ops[j].sub);
    }
  }

  /** After n operations, and after every number of them since k, the answer is sub. */
  ghost predicate AnsweredFrom<S>(ops: seq<Op<S>>, k: nat, a: uint64, sub: S)
  {
    forall n :: k < n <= |ops| ==> Lookup(Replay(ops[..n]), a) == Some(sub)
  }

  lemma {:induction false} KeptUpTo<S(!new)>(ops: seq<Op<S>>, k: nat, n: nat, a: uint64, sub: S)
    requires FirstClaim(ops, k, a, sub) && k < n <= |ops|
    requires forall j :: k < j < n ==> Keeps(ops, j, a, sub)
    ensures Lookup(Replay(ops[..n]), a) == Some(sub)
    decreases n
  {
    hide Lookup, Keeps, FirstClaim;
    if n == k + 1 {
      FirstAnswer(ops, k, a, sub);
    } else {
      KeptUpTo(ops, k, n - 1, a, sub);
      StepKeeps(ops, n - 1, a, sub);
    }
  }

  /** When routing is stable, for any history: exactly when every later
      operation keeps the number with its first claimant. */
  lemma AnsweredIff<S(!new)>(ops: seq<Op<S>>, k: nat, a: uint64, sub: S)
    requires FirstClaim(ops, k, a, sub)
    ensures AnsweredFrom(ops, k, a, sub) <==> forall n :: k < n < |ops| ==> Keeps(ops, n, a, sub)
  {
    hide Lookup, Keeps, FirstClaim;
    if AnsweredFrom(ops, k, a, sub) {
      forall n | k < n < |ops| ensures Keeps(ops, n, a, sub) { StepKeeps(ops, n, a, sub); }
    }
    if forall n :: k < n < |ops| ==> Keeps(ops, n, a, sub) {
      forall n | k < n <= |ops| ensures Lookup(Replay(ops[..n]), a) == Some(sub) { KeptUpTo(ops, k, n, a, sub); }
    }
  }

  /** When routing is stable under arbitrary aliases, if registrations use the
      counter: exactly when nobody else is ever given that number as alias. */
  lemma StableIff<S(!new)>(ops: seq<Op<S>>, k: nat, a: uint64, sub: S)
    requires FromCounter(ops) && |Allocated(ops)| <= TWO_63 && FirstClaim(ops, k, a, sub)
    ensures AnsweredFrom(ops, k, a, sub) <==>
            forall n :: k < n < |ops| && ops[n].DoBind? && ops[n].alias == a ==> ops[n].sub == sub
  {
    hide FromCounter, Allocated, AnsweredFrom;
    AnsweredIff(ops, k, a, sub);
    forall n | k < n < |ops| && ops[n].DoRegister? && ops[n].id == a ensures Keeps(ops, n, a, sub) {
      if ops[k].DoRegister? { RegistersOnce(ops, k, n); } else { assert ops[k].alias == a; }
    }
    forall n | k < n < |ops| && !(ops[n].DoRegister? && ops[n].id == a)
      ensures Keeps(ops, n, a, sub) <==> (ops[n].DoBind? && ops[n].alias == a ==> ops[n].sub == sub) {}
  }
}
