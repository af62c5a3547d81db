// The message recorder: object deliveries are aggregated into one event per
// (subgroup stream, group), through group objects that the event list and a
// map share.
module Richlog {
  import opened Bytes

  type int64 = x: int | -0x8000_0000_0000_0000 <= x < 0x8000_0000_0000_0000

  /** Signed 64-bit wrap-around. */
  function Wrap(x: int): int64
  {
    (x + 0x8000_0000_0000_0000) % TWO_64 - 0x8000_0000_0000_0000
  }

  /** Wrapping changes nothing in range, and elsewhere only a multiple of 2^64. */
  lemma WrapLaws(x: int)
    ensures -0x8000_0000_0000_0000 <= x < 0x8000_0000_0000_0000 ==> Wrap(x) == x
    ensures (Wrap(x) - x) % TWO_64 == 0
  {}

  /** The length of a Go slice. */
  type length = x: int | 0 <= x < 0x8000_0000_0000_0000

  /** A reading of the clock; 0 is the time that has not been set. */
  type time = nat

  datatype Row = Row(when: time, objectID: uint64, bytes: length)

  datatype Field = Field(key: string, value: string)

  datatype SpecRef = SpecRef(name: string, section: string)

  /** The parts of an event that are displayed. */
  datatype Info = Info(
    when: time,
    dir: string,
    channel: string,
    name: string,
    summary: string,
    fields: seq<Field>,
    explain: string,
    spec: SpecRef,
    body: string)

  /** An event without a time gets the present one. */
  function Stamped(info: Info, now: time): Info
  {
    if info.when == 0 then info.(when := now) else info
  }

  class ObjectGroup {
    const streamID: int64
    const track: string
    const trackAlias: uint64
    const groupID: uint64
    var rows: seq<Row>
    var totalBytes: int64

    constructor (streamID: int64, track: string, trackAlias: uint64, groupID: uint64)
      ensures this.streamID == streamID && this.track == track && this.trackAlias == trackAlias
      ensures this.groupID == groupID && rows == [] && totalBytes == 0
    {
      this.streamID := streamID;
      this.track := track;
      this.trackAlias := trackAlias;
      this.groupID := groupID;
      this.rows := [];
      this.totalBytes := 0;
    }
  }

  datatype Event = Event(info: Info, objects: ObjectGroup?)

  // ---------- the key of a group ----------

  function Digits(n: nat): (s: string)
    ensures |s| > 0
  {
    if n < 10 then [(n as char) + '0'] else Digits(n / 10) + [((n % 10) as char) + '0']
  }

  function Decimal(n: int): string
  {
    if n < 0 then "-" + Digits(-n) else Digits(n)
  }

  /** The map key: both numbers in decimal with a slash between them. */
  function Key(streamID: int64, groupID: uint64): string
  {
    Decimal(streamID) + "/" + Decimal(groupID)
  }

  predicate IsDigits(s: string)
  {
    forall c :: c in s ==> '0' <= c <= '9'
  }

  lemma {:induction false} DigitsAreDigits(n: nat)
    ensures IsDigits(Digits(n))
  {
    if n >= 10 { DigitsAreDigits(n / 10); }
  }

  /** The number that a string of decimal digits denotes. */
  function Number(s: string): int
  {
    if s == "" then 0 else 10 * Number(s[..|s| - 1]) + (s[|s| - 1] as int - '0' as int)
  }

  lemma {:induction false} DigitsDenote(n: nat)
    ensures Number(Digits(n)) == n
  {
    if n >= 10 {
      DigitsDenote(n / 10);
      assert Digits(n)[..|Digits(n)| - 1] == Digits(n / 10);
    }
  }

  lemma DigitsInjective(m: nat, n: nat)
    requires Digits(m) == Digits(n)
    ensures m == n
  {
    DigitsDenote(m);
    DigitsDenote(n);
  }

  lemma DecimalInjective(m: int, n: int)
    requires Decimal(m) == Decimal(n)
    ensures m == n
  {
    hide Digits;
    DigitsAreDigits(if m < 0 then -m else m);
    DigitsAreDigits(if n < 0 then -n else n);
    assert Decimal(m)[0] == Decimal(n)[0];
    assert m >= 0 ==> Digits(m)[0] in Digits(m);
    assert n >= 0 ==> Digits(n)[0] in Digits(n);
    if m < 0 && n < 0 {
      assert Decimal(m)[1..] == Digits(-m) && Decimal(n)[1..] == Digits(-n);
      DigitsInjective(-m, -n);
    } else if m >= 0 && n >= 0 {
      DigitsInjective(m, n);
    } else {
      assert false;
    }
  }

  lemma NoSlash(n: int)
    ensures '/' !in Decimal(n)
  {
    DigitsAreDigits(if n < 0 then -n else n);
  }

  lemma {:induction false} SplitAtSlash(a: string, b: string, x: string, y: string)
    requires '/' !in a && '/' !in b && a + "/" + x == b + "/" + y
    ensures a == b && x == y
  {
    var s := a + "/" + x;
    assert a != "" ==> s[0] == a[0] && a[0] in a && s[1..] == a[1..] + "/" + x;
    assert b != "" ==> s[0] == b[0] && b[0] in b && s[1..] == b[1..] + "/" + y;
    if a != "" && b != "" {
      SplitAtSlash(a[1..], b[1..], x, y);
    } else {
      assert s[1..] == x && s[1..] == y;
    }
  }

  /** Different (stream, group) pairs have different keys. */
  lemma KeyInjective(s: int64, g: uint64, s': int64, g': uint64)
    ensures Key(s, g) == Key(s', g') <==> s == s' && g == g'
  {
    hide Decimal;
    if Key(s, g) == Key(s', g') {
      NoSlash(s);
      NoSlash(s');
      SplitAtSlash(Decimal(s), Decimal(s'), Decimal(g), Decimal(g'));
      DecimalInjective(s, s');
      DecimalInjective(g, g');
    }
  }

  // ---------- the recorder on values ----------

  const OBJECTS_EXPLAIN := "media objects delivered on this subgroup stream"

  /** What the event of a group displays. */
  function GroupInfo(streamID: int64, created: time): Info
  {
    Info(created, "received", "subgroup stream " + Decimal(streamID), "OBJECTS", "", [], OBJECTS_EXPLAIN,
         SpecRef("Objects", "11.2"), "")
  }

  datatype Call =
    | Add(info: Info, now: time)
    | AddObject(streamID: int64, track: string, trackAlias: uint64, groupID: uint64, created: time, row: Row)

  /** What the event list shows. */
  datatype Entry =
    | Plain(info: Info)
    | Group(info: Info, streamID: int64, track: string, trackAlias: uint64, groupID: uint64, rows: seq<Row>,
            totalBytes: int64)

  predicate Matches(e: Entry, streamID: int64, groupID: uint64)
  {
    e.Group? && e.streamID == streamID && e.groupID == groupID
  }

  /** The position of the group, or the length of the list. */
  function Find(view: seq<Entry>, streamID: int64, groupID: uint64): (i: nat)
    ensures i <= |view|
    ensures i < |view| ==> Matches(view[i], streamID, groupID)
    ensures forall j :: 0 <= j < i ==> !Matches(view[j], streamID, groupID)
  {
    if view == [] then 0
    else if Matches(view[0], streamID, groupID) then 0
    else 1 + Find(view[1..], streamID, groupID)
  }

  function AddRow(e: Entry, row: Row): Entry
    requires e.Group?
  {
    e.(rows := e.rows + [row], totalBytes := Wrap(e.totalBytes + row.bytes))
  }

  /** The entry that the first delivery of a key starts, before its row. */
  function NewEntry(c: Call): (e: Entry)
    requires c.AddObject?
    ensures e.Group?
  {
    Group(GroupInfo(c.streamID, c.created), c.streamID, c.track, c.trackAlias, c.groupID, [], 0)
  }

  function Record(view: seq<Entry>, c: Call): seq<Entry>
  {
    match c
    case Add(info, now) => view + [Plain(Stamped(info, now))]
    case AddObject(s, _, _, g, _, row) =>
      var i := Find(view, s, g);
      if i < |view| then view[i := AddRow(view[i], row)] else view + [AddRow(NewEntry(c), row)]
  }

  /** Making sure that the entry is there and adding the row to it is Record. */
  lemma RecordInTwo(view: seq<Entry>, more: seq<Entry>, at: nat, c: Call)
    requires c.AddObject? && at == Find(view, c.streamID, c.groupID)
    requires more == if at < |view| then view else view + [NewEntry(c)]
    ensures at < |more| && more[at].Group? && Record(view, c) == more[at := AddRow(more[at], c.row)]
  {
    hide Find, NewEntry, Wrap;
    if at == |view| {
      assert more[at := AddRow(more[at], c.row)] == view + [AddRow(NewEntry(c), c.row)];
    }
  }

  /** The event list after a history of calls. */
  function Replay(calls: seq<Call>): seq<Entry>
  {
    if calls == [] then []
    else Record(Replay(calls[..|calls| - 1]), calls[|calls| - 1])
  }

  lemma ReplayMore(calls: seq<Call>, c: Call)
    ensures Replay(calls + [c]) == Record(Replay(calls), c)
  {
    hide Record;
    assert (calls + [c])[..|calls|] == calls;
  }

  // ---------- the code ----------

  class Recorder {
    var events: seq<Event>
    var groups: map<string, ObjectGroup>
    ghost var at: map<string, nat>  // where in the list each group is
    ghost var history: seq<Call>    // all calls so far

    /** Map and event list hold the same group objects, each of them once. */
    ghost predicate Valid()
      reads this
    {
      Linked(events, groups, at)
    }

    static ghost predicate Linked(events: seq<Event>, groups: map<string, ObjectGroup>, at: map<string, nat>)
    {
      && at.Keys == groups.Keys
      && (forall k :: k in groups ==>
            at[k] < |events| && events[at[k]].objects == groups[k] && KeyOf(groups[k]) == k)
      && (forall i :: 0 <= i < |events| && events[i].objects != null ==>
            KeyOf(events[i].objects) in groups && at[KeyOf(events[i].objects)] == i)
    }

    static ghost function KeyOf(g: ObjectGroup): string
    {
      Key(g.streamID, g.groupID)
    }

    static ghost function Show(e: Event): Entry
      reads e.objects
    {
      if e.objects == null then Plain(e.info)
      else Group(e.info, e.objects.streamID, e.objects.track, e.objects.trackAlias, e.objects.groupID,
                 e.objects.rows, e.objects.totalBytes)
    }

    /** What a reader of the event list sees. */
    ghost function View(): (v: seq<Entry>)
      reads this, set e | e in events :: e.objects
      ensures |v| == |events|
      ensures forall i :: 0 <= i < |v| ==> v[i] == Show(events[i])
    {
      ViewOf(events)
    }

    static ghost function ViewOf(es: seq<Event>): (v: seq<Entry>)
      reads set e | e in es :: e.objects
      ensures |v| == |es|
      ensures forall i :: 0 <= i < |v| ==> v[i] == Show(es[i])
    {
      if es == [] then [] else
        assert forall e :: e in es[1..] ==> e in es;
        [Show(es[0])] + ViewOf(es[1..])
    }

    /** The list shows what all calls so far amount to. */
    ghost predicate Faithful()
      reads this, set e | e in events :: e.objects
    {
      Valid() && View() == Replay(history)
    }

    constructor ()
      ensures Faithful() && history == [] && View() == [] && groups == map[]
    {
      events := [];
      groups := map[];
      at := map[];
      history := [];
    }

    method Add(info: Info, now: time)
      requires Faithful()
      modifies this
      ensures Faithful() && groups == old(groups) && history == old(history) + [Call.Add(info, now)]
      ensures View() == old(View()) + [Plain(if info.when == 0 then info.(when := now) else info)]
    {
      hide Key, ViewOf, Replay, Linked;
      Remember(Call.Add(info, now));
      var ev := info;
      if ev.when == 0 {
        ev := ev.(when := now);
      }
      LinkedPlain(events, groups, at, ev);
      Append(Event(ev, null));
    }

    ghost method Remember(call: Call)
      modifies this`history
      ensures history == old(history) + [call] && View() == old(View())
      ensures Replay(history) == Record(Replay(old(history)), call)
    {
      hide ViewOf, Replay, Record, Linked;
      ReplayMore(history, call);
      history := history + [call];
      assert forall i :: 0 <= i < |events| ==> View()[i] == Show(events[i]) == old(View())[i];
    }

    /** One more event shows as one more entry. */
    method Append(e: Event)
      modifies this`events
      ensures events == old(events) + [e] && View() == old(View()) + [Show(e)]
    {
      hide ViewOf, Linked;
      ghost var before := events;
      events := events + [e];
      assert forall i :: 0 <= i < |before| ==> View()[i] == Show(before[i]) == old(View())[i];
    }

    /** The clock is read for a new event, and again for the row. */
    method AddObject(streamID: int64, track: string, trackAlias: uint64, groupID: uint64, objectID: uint64,
                     payloadBytes: length, created: time, now: time)
      requires Faithful()
      modifies this, groups.Values
      ensures Faithful()
      ensures var row := Row(now, objectID, payloadBytes);
              var call := Call.AddObject(streamID, track, trackAlias, groupID, created, row);
              history == old(history) + [call] && View() == Record(old(View()), call)
      ensures forall k :: k in old(groups) ==> k in groups && groups[k] == old(groups[k])
      ensures fresh(groups.Values - old(groups.Values))
    {
      hide Key, Find, Decimal, ViewOf, Record, AddRow, Matches, Show, KeyOf, GroupInfo, Linked, Replay;
      var key := Key(streamID, groupID);
      var grp: ObjectGroup;
      ghost var view := View();
      ghost var call := Call.AddObject(streamID, track, trackAlias, groupID, created, Row(now, objectID, payloadBytes));
      Remember(call);
      FindIsMap(streamID, groupID);
      if key in groups {
        grp := groups[key];
      } else {
        grp := NewGroup(key, streamID, track, trackAlias, groupID, created);
      }
      RecordInTwo(view, View(), at[key], call);
      AppendRow(key, grp, Row(now, objectID, payloadBytes));
    }

    /** Updating a group object shows at its one place in the list. */
    method AppendRow(key: string, grp: ObjectGroup, row: Row)
      requires Valid() && key in groups && groups[key] == grp
      modifies grp
      ensures Valid()
      ensures View() == old(View())[at[key] := AddRow(old(View())[at[key]], row)]
    {
      hide Key, ViewOf;
      grp.rows := grp.rows + [row];
      grp.totalBytes := Wrap(grp.totalBytes + row.bytes);
      forall i | 0 <= i < |events| && i != at[key] ensures Show(events[i]) == old(Show(events[i])) {
      }
    }

    /** The branch for a key that is not in the map. */
    method NewGroup(key: string, streamID: int64, track: string, trackAlias: uint64, groupID: uint64, created: time)
      returns (grp: ObjectGroup)
      requires Valid() && key == Key(streamID, groupID) && key !in groups
      modifies this
      ensures Valid() && fresh(grp) && history == old(history)
      ensures groups == old(groups)[key := grp] && at == old(at)[key := |old(events)|]
      ensures View() == old(View()) + [Group(GroupInfo(streamID, created), streamID, track, trackAlias, groupID, [], 0)]
    {
      hide Key, Decimal, ViewOf, GroupInfo;
      grp := new ObjectGroup(streamID, track, trackAlias, groupID);
      PushGroup(key, grp, GroupInfo(streamID, created));
    }

    /** The map and the list get the same object. */
    method PushGroup(key: string, grp: ObjectGroup, info: Info)
      requires Valid() && key == KeyOf(grp) && key !in groups
      modifies this
      ensures Valid() && history == old(history)
      ensures groups == old(groups)[key := grp] && at == old(at)[key := |old(events)|]
      ensures View() == old(View()) + [Show(Event(info, grp))]
    {
      hide ViewOf, KeyOf, Linked;
      LinkedMore(events, groups, at, grp, info);
      groups := groups[key := grp];
      at := at[key := |events|];
      assert forall i :: 0 <= i < |events| ==> View()[i] == Show(events[i]) == old(View())[i];
      Append(Event(info, grp));
    }

    /** A new group goes into the map and behind the list. */
    static lemma LinkedMore(events: seq<Event>, groups: map<string, ObjectGroup>, at: map<string, nat>,
                            grp: ObjectGroup, info: Info)
      requires Linked(events, groups, at) && KeyOf(grp) !in groups
      ensures Linked(events + [Event(info, grp)], groups[KeyOf(grp) := grp], at[KeyOf(grp) := |events|])
    {
      hide KeyOf;
    }

    static lemma LinkedPlain(events: seq<Event>, groups: map<string, ObjectGroup>, at: map<string, nat>, info: Info)
      requires Linked(events, groups, at)
      ensures Linked(events + [Event(info, null)], groups, at)
    {
      hide KeyOf;
    }

    /** Looking up the map finds the position that searching the list finds. */
    lemma FindIsMap(streamID: int64, groupID: uint64)
      requires Valid()
      ensures var key := Key(streamID, groupID);
              && (key in groups <==> key in at) && (key in groups ==> at[key] < |events|)
              && Find(View(), streamID, groupID) == if key in groups then at[key] else |events|
    {
      hide Key, Find;
      var key := Key(streamID, groupID);
      var i := Find(View(), streamID, groupID);
      if key in groups {
        KeyInjective(streamID, groupID, groups[key].streamID, groups[key].groupID);
        assert Matches(View()[at[key]], streamID, groupID);
      }
      if i < |events| {
        assert View()[i] == Show(events[i]);
      }
    }
  }
}
