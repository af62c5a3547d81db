// The subscriber as a step system: the bootstrap, one reader per request
// stream, and any number of subgroup stream readers, interleaved in any way
// against any relay. One step is one critical section, one channel operation
// or one atomic add.
module Session {
  import opened Bytes
  import opened Registry

  type Payload = seq<byte>

  // ---------- state ----------

  datatype PerRole<T> = PerRole(catalog: T, init: T, media: T)
  {
    function Get(r: Role): T
    {
      match r
      case Catalog => catalog
      case Init => init
      case Media => media
    }

    function Set(r: Role, x: T): PerRole<T>
    {
      match r
      case Catalog => this.(catalog := x)
      case Init => this.(init := x)
      case Media => this.(media := x)
    }
  }

  /** A message that the relay puts on a request stream. */
  datatype Message = SubscribeOK(alias: uint64) | RequestError | Other

  /** Where the reader of a request stream stands. */
  datatype ReaderPc =
    | NotStarted
    | Reading
    | Binding(alias: uint64)     // a SUBSCRIBE_OK has been decoded
    | Signalling(alias: uint64)  // its alias has been bound
    | Refusing                   // a REQUEST_ERROR has been decoded
    | Closed

  /** A subscription. The last four fields are history. */
  datatype Sub = Sub(
    id: Option<uint64>,
    sent: bool,
    okCh: Option<Verdict>,
    firstCh: Option<Payload>,
    gotFirst: bool,
    reader: ReaderPc,
    messages: seq<Message>,      // read from the request stream
    verdict: Option<Verdict>,    // received by waitSubscribeOK
    offers: seq<Payload>,        // offered to firstObjCh by any reader
    first: Option<Payload>)      // received by waitFirstObject

  /** The bootstrap goroutine. */
  datatype BootPc =
    | Start(r: Role)
    | Registering(r: Role)
    | Sending(r: Role)
    | Spawning(r: Role)
    | AwaitingOK(r: Role)
    | AwaitingObject(r: Role)
    | ParsingCatalog
    | WritingInit(payload: Payload)
    | CountingInit(n: nat)
    | Ready
    | Failed

  datatype Body = Status | Data(payload: Payload)

  /** What a reader sees of an object. */
  datatype Object = Object(delta: uint64, body: Body)

  /** Where the reader of a subgroup stream stands. */
  datatype StreamPc =
    | Opened                     // the header has been parsed
    | Headed                     // groupsSeen has been bumped
    | Looping                    // at the call of Next
    | Got(o: Object)
    | Hinting(o: Object)         // objectsSeen has been bumped, the delta is positive
    | Dispatching(o: Object)
    | Marking(payload: Payload)  // gotFirst was seen to be false
    | Offering(payload: Payload)
    | Adding(n: nat)             // written, bytesWritten not yet bumped
    | Ended
    | Broken(payload: Payload)   // the write failed

  /** A subgroup stream; read is history. */
  datatype Stream = Stream(alias: uint64, sub: Option<Role>, pc: StreamPc, read: seq<Object>)

  datatype Source = FromInit | FromStream(i: nat)

  /** One successful write. */
  datatype Entry = Entry(src: Source, payload: Payload)

  /** log and bound are history. */
  datatype State = State(
    boot: BootPc,
    reg: Reg<Role>,
    subs: PerRole<Sub>,
    streams: seq<Stream>,
    sink: seq<byte>,
    log: seq<Entry>,
    bound: set<(uint64, Role)>,
    bytesWritten: uint64,
    objectsSeen: uint64,
    groupsSeen: uint64,
    gapHints: uint64,
    statusObjects: uint64)

  const NEW_SUB := Sub(None, false, None, None, false, NotStarted, [], None, [], None)

  const INITIAL := State(Start(Catalog), Empty(), PerRole(NEW_SUB, NEW_SUB, NEW_SUB), [], [], [], {}, 0, 0, 0, 0, 0)

  // ---------- steps ----------

  /** Which goroutine moves, and what the outside world contributes. */
  datatype Action =
    | BootStep
    | BootFail                       // timeout, cancellation, parse, send or write error
    | ReqRecv(r: Role, m: Message)   // the relay's next message on a request stream
    | ReqStep(r: Role)
    | ReqClose(r: Role)              // end of the request stream, or a message that does not decode
    | Open(alias: uint64)            // the relay opens a subgroup stream
    | Read(i: nat, o: Object)        // Next returns an object
    | StreamStep(i: nat)
    | End(i: nat)                    // Next returns an error
    | BreakWrite(i: nat)             // the write of a media payload fails

  /** An action that is not possible in s leaves s alone. */
  function Next(s: State, a: Action): State
  {
    match a
    case BootStep => StepBoot(s)
    case BootFail => FailBoot(s)
    case ReqRecv(r, m) => Receive(s, r, m)
    case ReqStep(r) => StepReader(s, r)
    case ReqClose(r) => if s.subs.Get(r).reader == Reading then SetReader(s, r, Closed) else s
    case Open(alias) => s.(streams := s.streams + [Stream(alias, None, Opened, [])])
    case Read(i, o) =>
      if i < |s.streams| && s.streams[i].pc == Looping
      then s.(streams := s.streams[i := s.streams[i].(pc := Got(o), read := s.streams[i].read + [o])])
      else s
    case StreamStep(i) => if i < |s.streams| then StepStream(s, i) else s
    case End(i) => if i < |s.streams| && s.streams[i].pc == Looping then Goto(s, i, Ended) else s
    case BreakWrite(i) =>
      if i < |s.streams| && IsWriting(s.streams[i]) then Goto(s, i, Broken(s.streams[i].pc.o.body.payload)) else s
  }

  function SetSub(s: State, r: Role, sub: Sub): State
  {
    s.(subs := s.subs.Set(r, sub))
  }

  function SetReader(s: State, r: Role, pc: ReaderPc): State
  {
    SetSub(s, r, s.subs.Get(r).(reader := pc))
  }

  function Goto(s: State, i: nat, pc: StreamPc): State
    requires i < |s.streams|
  {
    s.(streams := s.streams[i := s.streams[i].(pc := pc)])
  }

  function StepBoot(s: State): State
  {
    match s.boot
    case Start(r) =>
      SetSub(s, r, s.subs.Get(r).(id := Some(s.reg.nextID))).(reg := Alloc(s.reg), boot := Registering(r))
    case Registering(r) =>
      if s.subs.Get(r).id == None then s
      else s.(reg := Register(s.reg, s.subs.Get(r).id.value, r), boot := Sending(r))
    case Sending(r) => SetSub(s, r, s.subs.Get(r).(sent := true)).(boot := Spawning(r))
    case Spawning(r) => SetReader(s, r, Reading).(boot := AwaitingOK(r))
    case AwaitingOK(r) =>
      var sub := s.subs.Get(r);
      if sub.okCh == None then s
      else SetSub(s, r, sub.(okCh := None, verdict := sub.okCh)).(
        boot := if sub.okCh.value == Rejected then Failed else if r == Media then Ready else AwaitingObject(r))
    case AwaitingObject(r) =>
      var sub := s.subs.Get(r);
      if sub.firstCh == None then s
      else SetSub(s, r, sub.(firstCh := None, first := sub.firstCh)).(
        boot := if r == Catalog then ParsingCatalog else WritingInit(sub.firstCh.value))
    case ParsingCatalog => s.(boot := Start(Init))
    case WritingInit(p) => s.(sink := s.sink + p, log := s.log + [Entry(FromInit, p)], boot := CountingInit(|p|))
    case CountingInit(n) => s.(bytesWritten := Add64(s.bytesWritten, n % TWO_64), boot := Start(Media))
    case Ready => s
    case Failed => s
  }

  /** The places where the bootstrap can return an error of its own. */
  function FailBoot(s: State): State
  {
    match s.boot
    case Sending(_) => s.(boot := Failed)
    case AwaitingOK(_) => s.(boot := Failed)
    case AwaitingObject(_) => s.(boot := Failed)
    case ParsingCatalog => s.(boot := Failed)
    case WritingInit(_) => s.(boot := Failed)
    case _ => s
  }

  function Receive(s: State, r: Role, m: Message): State
  {
    var sub := s.subs.Get(r);
    if sub.reader != Reading then s
    else
      var pc := match m
        case SubscribeOK(a) => Binding(a)
        case RequestError => Refusing
        case Other => Reading;
      SetSub(s, r, sub.(messages := sub.messages + [m], reader := pc))
  }

  function StepReader(s: State, r: Role): State
  {
    var sub := s.subs.Get(r);
    match sub.reader
    case Binding(a) => SetReader(s, r, Signalling(a)).(reg := Bind(s.reg, r, a), bound := s.bound + {(a, r)})
    case Signalling(a) => SetSub(s, r, sub.(okCh := Offer(sub.okCh, Accepted(a)), reader := Reading))
    case Refusing => SetSub(s, r, sub.(okCh := Offer(sub.okCh, Rejected), reader := Closed))
    case _ => s
  }

  predicate IsWriting(t: Stream)
  {
    t.pc.Dispatching? && t.pc.o.body.Data? && t.sub == Some(Media)
  }

  function StepStream(s: State, i: nat): State
    requires i < |s.streams|
  {
    var t := s.streams[i];
    match t.pc
    case Opened => Goto(s, i, Headed).(groupsSeen := Add64(s.groupsSeen, 1))
    case Headed => s.(streams := s.streams[i := t.(pc := Looping, sub := Lookup(s.reg, t.alias))])
    case Got(o) =>
      Goto(s, i, if o.delta > 0 then Hinting(o) else Dispatching(o)).(objectsSeen := Add64(s.objectsSeen, 1))
    case Hinting(o) => Goto(s, i, Dispatching(o)).(gapHints := Add64(s.gapHints, 1))
    case Dispatching(o) => Dispatch(s, i, o)
    case Marking(p) =>
      (match t.sub
       case None => s
       case Some(r) => Goto(SetSub(s, r, s.subs.Get(r).(gotFirst := true)), i, Offering(p)))
    case Offering(p) =>
      (match t.sub
       case None => s
       case Some(r) =>
         var sub := s.subs.Get(r);
         Goto(SetSub(s, r, sub.(firstCh := Offer(sub.firstCh, p), offers := sub.offers + [p])), i, Looping))
    case Adding(n) => Goto(s, i, Looping).(bytesWritten := Add64(s.bytesWritten, n % TWO_64))
    case Looping => s
    case Ended => s
    case Broken(_) => s
  }

  function Dispatch(s: State, i: nat, o: Object): State
    requires i < |s.streams|
  {
    match o.body
    case Status => Goto(s, i, Looping).(statusObjects := Add64(s.statusObjects, 1))
    case Data(p) =>
      match s.streams[i].sub
      case None => Goto(s, i, Looping)
      case Some(Media) =>
        Goto(s, i, Adding(|p|)).(sink := s.sink + p, log := s.log + [Entry(FromStream(i), p)])
      case Some(r) => Goto(s, i, if s.subs.Get(r).gotFirst then Looping else Marking(p))
  }

  /** The state after a run. */
  function Exec(run: seq<Action>): State
  {
    if run == [] then INITIAL else Next(Exec(run[..|run| - 1]), run[|run| - 1])
  }

  lemma ExecMore(run: seq<Action>, a: Action)
    ensures Exec(run + [a]) == Next(Exec(run), a)
  {
    hide Next;
    assert (run + [a])[..|run|] == run;
  }
}
