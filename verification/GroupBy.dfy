// What the recorder's event list is, as a function of the calls made: a
// group-by in order of first arrival.
module GroupBy {
  import opened Bytes
  import opened Richlog

  predicate Has(c: Call, streamID: int64, groupID: uint64)
  {
    c.AddObject? && c.streamID == streamID && c.groupID == groupID
  }

  /** The deliveries with this key, in order. */
  function RowsOf(calls: seq<Call>, streamID: int64, groupID: uint64): seq<Row>
  {
    if calls == [] then []
    else
      var c := calls[|calls| - 1];
      RowsOf(calls[..|calls| - 1], streamID, groupID) + (if Has(c, streamID, groupID) then [c.row] else [])
  }

  /** The unbounded sum of the sizes. */
  function TotalSize(rows: seq<Row>): nat
  {
    if rows == [] then 0 else TotalSize(rows[..|rows| - 1]) + rows[|rows| - 1].bytes
  }

  /** The calls that start an entry: every plain event, and the first delivery
      of each key. */
  function Starters(calls: seq<Call>): seq<Call>
  {
    if calls == [] then []
    else
      var front, c := calls[..|calls| - 1], calls[|calls| - 1];
      if c.AddObject? && RowsOf(front, c.streamID, c.groupID) != [] then Starters(front)
      else Starters(front) + [c]
  }

  /** The entry that a starter has become by the end of the history. */
  function Summary(calls: seq<Call>, c: Call): Entry
  {
    match c
    case Add(info, now) => Plain(Stamped(info, now))
    case AddObject(s, track, alias, g, created, _) =>
      Group(GroupInfo(s, created), s, track, alias, g, RowsOf(calls, s, g), Wrap(TotalSize(RowsOf(calls, s, g))))
  }

  predicate IsGroupBy(view: seq<Entry>, calls: seq<Call>)
  {
    && |view| == |Starters(calls)|
    && forall i :: 0 <= i < |view| ==> view[i] == Summary(calls, Starters(calls)[i])
  }

  lemma WrapSum(a: int, b: int)
    ensures Wrap(Wrap(a) + b) == Wrap(a + b)
  {}

  /** A key has rows exactly when one of the starters has that key. */
  lemma {:induction false} StarterExists(calls: seq<Call>, s: int64, g: uint64)
    ensures RowsOf(calls, s, g) != [] <==> exists i :: 0 <= i < |Starters(calls)| && Has(Starters(calls)[i], s, g)
  {
    if calls != [] {
      var front, c := calls[..|calls| - 1], calls[|calls| - 1];
      StarterExists(front, s, g);
      var before, after := Starters(front), Starters(calls);
      if exists i :: 0 <= i < |before| && Has(before[i], s, g) {
        var i :| 0 <= i < |before| && Has(before[i], s, g);
        assert after[i] == before[i];
      }
      if after != before { assert after[|before|] == c; }
    }
  }

  /** No two starters have the same key. */
  lemma {:induction false} StartersDiffer(calls: seq<Call>, i: nat, j: nat, s: int64, g: uint64)
    requires i < j < |Starters(calls)|
    requires Has(Starters(calls)[i], s, g)
    ensures !Has(Starters(calls)[j], s, g)
  {
    var front, c := calls[..|calls| - 1], calls[|calls| - 1];
    var before := Starters(front);
    if j < |before| {
      StartersDiffer(front, i, j, s, g);
    } else {
      StarterExists(front, s, g);
      assert Has(before[i], s, g);
    }
  }

  /** For every history of calls, the event list is its group-by. */
  lemma {:induction false} ReplayIsGroupBy(calls: seq<Call>)
    ensures IsGroupBy(Replay(calls), calls)
  {
    if calls != [] {
      var front, c := calls[..|calls| - 1], calls[|calls| - 1];
      ReplayIsGroupBy(front);
      if c.AddObject? { ObjectStep(front, c); } else { PlainStep(front, c); }
    }
  }

  lemma PlainStep(front: seq<Call>, c: Call)
    requires c.Add? && IsGroupBy(Replay(front), front)
    ensures IsGroupBy(Record(Replay(front), c), front + [c])
  {
    hide Wrap, RowsOf, TotalSize;
    var calls := front + [c];
    assert calls[..|front|] == front;
    forall x | x in Starters(front) ensures Summary(calls, x) == Summary(front, x) {
      if x.AddObject? {
        RowsStep(front, c, x.streamID, x.groupID);
        assert RowsOf(front, x.streamID, x.groupID) + [] == RowsOf(front, x.streamID, x.groupID);
      }
    }
  }

  lemma RowsStep(front: seq<Call>, c: Call, s: int64, g: uint64)
    ensures RowsOf(front + [c], s, g) == RowsOf(front, s, g) + (if Has(c, s, g) then [c.row] else [])
  {
    assert (front + [c])[..|front|] == front;
  }

  /** A delivery changes the summary of the starter with its key, and no other. */
  lemma SummaryStep(front: seq<Call>, c: Call, x: Call)
    requires c.AddObject?
    ensures var before, after := Summary(front, x), Summary(front + [c], x);
            after == if Matches(before, c.streamID, c.groupID) then AddRow(before, c.row) else before
  {
    hide Wrap, RowsOf, TotalSize;
    if x.AddObject? {
      RowsStep(front, c, x.streamID, x.groupID);
      var rows := RowsOf(front, x.streamID, x.groupID);
      SizeStep(rows, c.row);
      WrapSum(TotalSize(rows), c.row.bytes);
      assert rows + [] == rows;
    }
  }

  lemma SizeStep(rows: seq<Row>, row: Row)
    ensures TotalSize(rows + [row]) == TotalSize(rows) + row.bytes
  {
    assert (rows + [row])[..|rows|] == rows;
  }

  lemma ObjectStep(front: seq<Call>, c: Call)
    requires c.AddObject? && IsGroupBy(Replay(front), front)
    ensures IsGroupBy(Record(Replay(front), c), front + [c])
  {
    hide Summary, Wrap;
    var s, g := c.streamID, c.groupID;
    var calls, view, starters := front + [c], Replay(front), Starters(front);
    assert calls[..|front|] == front;
    var i := Find(view, s, g);
    forall k | 0 <= k < |view|
      ensures Matches(view[k], s, g) <==> Has(starters[k], s, g)
      ensures Summary(calls, starters[k]) == if Matches(view[k], s, g) then AddRow(view[k], c.row) else view[k]
    {
      SummaryMatches(front, starters[k], s, g);
      SummaryStep(front, c, starters[k]);
    }
    StarterExists(front, s, g);
    if i < |view| {
      forall k | 0 <= k < |view| && k != i ensures !Matches(view[k], s, g) {
        if i < k { StartersDiffer(front, i, k, s, g); }
      }
    } else {
      NewSummary(front, c);
    }
  }

  lemma SummaryMatches(calls: seq<Call>, x: Call, s: int64, g: uint64)
    ensures Matches(Summary(calls, x), s, g) <==> Has(x, s, g)
  {}

  lemma NewSummary(front: seq<Call>, c: Call)
    requires c.AddObject? && RowsOf(front, c.streamID, c.groupID) == []
    ensures Summary(front + [c], c) == AddRow(NewEntry(c), c.row)
  {
    RowsStep(front, c, c.streamID, c.groupID);
    assert [] + [c.row] == [c.row];
    assert TotalSize([c.row]) == c.row.bytes;
  }

  /** A recorder shows the group-by of all calls ever made to it. */
  lemma RecorderIsGroupBy(rec: Recorder)
    requires rec.Faithful()
    ensures IsGroupBy(rec.View(), rec.history)
  {
    hide IsGroupBy;
    ReplayIsGroupBy(rec.history);
  }

  /** The totals are the sums of the sizes: exactly while the sum is below 2^63,
      and modulo 2^64 in any case. */
  lemma TotalsAreSums(calls: seq<Call>, i: nat)
    requires i < |Replay(calls)| && Replay(calls)[i].Group?
    ensures var e := Replay(calls)[i]; var sum := TotalSize(RowsOf(calls, e.streamID, e.groupID));
            && e.rows == RowsOf(calls, e.streamID, e.groupID)
            && (sum < 0x8000_0000_0000_0000 ==> e.totalBytes == sum)
            && (e.totalBytes - sum) % TWO_64 == 0
  {
    hide Wrap, Replay, RowsOf, TotalSize;
    ReplayIsGroupBy(calls);
    var e := Replay(calls)[i];
    WrapLaws(TotalSize(RowsOf(calls, e.streamID, e.groupID)));
  }

  /** An event that has a time keeps it; another one gets the time of the call. */
  lemma PlainKeepsTime(calls: seq<Call>, i: nat)
    requires i < |Replay(calls)|
    ensures |Starters(calls)| == |Replay(calls)|
    ensures var c := Starters(calls)[i];
            (c.Add? ==> Replay(calls)[i] == Plain(if c.info.when == 0 then c.info.(when := c.now) else c.info))
  {
    hide Replay, Starters;
    ReplayIsGroupBy(calls);
  }

  /** The event of a group has the time of its first delivery, and names its
      stream. */
  lemma GroupKeepsTime(calls: seq<Call>, i: nat)
    requires i < |Replay(calls)| && Replay(calls)[i].Group?
    ensures |Starters(calls)| == |Replay(calls)| && Starters(calls)[i].AddObject?
    ensures var e, c := Replay(calls)[i], Starters(calls)[i];
            && e.streamID == c.streamID && e.groupID == c.groupID && e.track == c.track && e.trackAlias == c.trackAlias
            && e.info.when == c.created && e.info.name == "OBJECTS"
            && e.info.channel == "subgroup stream " + Decimal(c.streamID)
  {
    hide Replay, Starters, RowsOf, Decimal;
    ReplayIsGroupBy(calls);
  }
}
