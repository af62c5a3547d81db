// What goes through the hand-off channels comes out at most once.
module Exchange {
  import opened Bytes
  import opened Registry
  import opened Session
  import opened Invariants
  import Handoff

  /** The number of responses among the messages. */
  function Responses(ms: seq<Message>): nat
  {
    if ms == [] then 0 else Responses(ms[..|ms| - 1]) + (if ms[|ms| - 1] == Other then 0 else 1)
  }

  function One<T>(x: Option<T>): nat { if x == None then 0 else 1 }

  /** Received, in the channel, or about to be sent: no more than has arrived. */
  predicate Balanced(sub: Sub)
  {
    && One(sub.verdict) + One(sub.okCh) + One(Handoff.Pending(sub.reader)) <= Responses(sub.messages)
    && One(sub.first) + One(sub.firstCh) <= |sub.offers|
  }

  ghost predicate AllBalanced(s: State)
  {
    forall r :: Balanced(s.subs.Get(r))
  }

  lemma BalancedOf(s: State, r: Role)
    requires AllBalanced(s)
    ensures Balanced(s.subs.Get(r))
  {}

  lemma OneMore(ms: seq<Message>, m: Message)
    ensures Responses(ms + [m]) == Responses(ms) + (if m == Other then 0 else 1)
  {
    assert (ms + [m])[..|ms|] == ms;
  }

  lemma BootBalanced(s: State, r: Role)
    requires Progress(s) && AllBalanced(s)
    ensures Balanced(StepBoot(s).subs.Get(r))
  {
    hide Progress, AllBalanced, Responses, StepBoot;
    BalancedOf(s, r);
    NotYetHere(s, r);
    if OwnStep(s.boot, r) {
      OwnBalanced(s, r);
    } else {
      RankGrows(s);
    }
  }

  lemma NotYetHere(s: State, r: Role)
    requires Progress(s)
    ensures NotYet(s, r) && s.boot != AwaitingObject(Media)
  {}

  lemma OwnBalanced(s: State, r: Role)
    requires NotYet(s, r) && Balanced(s.subs.Get(r)) && OwnStep(s.boot, r)
    ensures Balanced(StepBoot(s).subs.Get(r))
  {
    hide Responses;
  }

  lemma ReceiveBalanced(s: State, q: Role, m: Message, r: Role)
    requires Balanced(s.subs.Get(r))
    ensures Balanced(Receive(s, q, m).subs.Get(r))
  {
    hide Responses;
    OneMore(s.subs.Get(q).messages, m);
  }

  lemma ReaderBalanced(s: State, q: Role, r: Role)
    requires Balanced(s.subs.Get(r))
    ensures Balanced(StepReader(s, q).subs.Get(r))
  {
    hide Balanced, StepReader, Handoff.ReaderSub;
    if q == r {
      Handoff.ReaderSubIs(s, q);
      ReaderSubBalanced(s.subs.Get(q));
    } else {
      OtherReader(s, q, r);
    }
  }

  lemma OtherReader(s: State, q: Role, r: Role)
    requires q != r
    ensures StepReader(s, q).subs.Get(r) == s.subs.Get(r)
  {}

  lemma ReaderSubBalanced(sub: Sub)
    requires Balanced(sub)
    ensures Balanced(Handoff.ReaderSub(sub))
  {
    hide Responses;
  }

  lemma StreamBalanced(s: State, i: nat, r: Role)
    requires i < |s.streams| && Balanced(s.subs.Get(r))
    ensures Balanced(StepStream(s, i).subs.Get(r))
  {
    hide Responses, StepStream;
    Handoff.OfferHands(s, i, r);
  }

  lemma OtherBalanced(s: State, a: Action, r: Role)
    requires Balanced(s.subs.Get(r)) && (a.BootFail? || a.ReqClose? || a.Open? || a.Read? || a.End? || a.BreakWrite?)
    ensures Balanced(Next(s, a).subs.Get(r))
  {
    hide Responses;
  }

  lemma BalancedStep(s: State, a: Action)
    requires Progress(s) && AllBalanced(s)
    ensures AllBalanced(Next(s, a))
  {
    hide Progress, Balanced, StepBoot, FailBoot, Receive, StepReader, StepStream;
    forall r ensures Balanced(Next(s, a).subs.Get(r)) {
      BalancedOf(s, r);
      match a
      case BootStep => BootBalanced(s, r);
      case ReqRecv(q, m) => ReceiveBalanced(s, q, m, r);
      case ReqStep(q) => ReaderBalanced(s, q, r);
      case StreamStep(i) => if i < |s.streams| { StreamBalanced(s, i, r); }
      case _ => OtherBalanced(s, a, r);
    }
  }

  lemma {:induction false} AlwaysBalanced(run: seq<Action>)
    ensures Progress(Exec(run)) && AllBalanced(Exec(run))
  {
    hide Next, Progress, AllBalanced;
    if run == [] {
      InitiallyBalanced();
    } else {
      var s := Exec(run[..|run| - 1]);
      AlwaysBalanced(run[..|run| - 1]);
      ProgressStep(s, run[|run| - 1]);
      BalancedStep(s, run[|run| - 1]);
    }
  }

  lemma InitiallyBalanced()
    ensures Progress(INITIAL) && AllBalanced(INITIAL)
  {}

  /** Nothing is received twice: in every run the responses received, in the
      channel and about to be sent are no more than have arrived, and the
      objects received and in the channel no more than have been offered. */
  lemma NothingTwice(run: seq<Action>, r: Role)
    ensures Balanced(Exec(run).subs.Get(r))
  {
    hide Exec, Balanced, Progress;
    AlwaysBalanced(run);
    BalancedOf(Exec(run), r);
  }
}
