// Rejected SETUP messages: where the control stream stops, and which of them
// nobody hears of, because the decoder's error looks like the end of a stream.
module Rejection {
  import opened Bytes
  import opened Input
  import opened Frames
  import opened UniStream
  import Cuts
  import KeyValue
  import Varint

  // ---------- payloads that end where a read starts ----------

  /** One byte that announces a longer varint. */
  predicate Announces(s: seq<byte>)
  {
    |s| == 1 && Varint.Length(s[0]) > 1
  }

  /** A part of a pair after type prev that ends at the start of a read: in its
      delta, behind a delta that does not overflow, or in the varint after it. */
  predicate Torn(prev: uint64, s: seq<byte>)
  {
    || Announces(s)
    || exists n | 1 <= n <= |s| ::
         && Varint.IsEncoding(s[..n]) && prev + Varint.Value(s[..n]) < TWO_64
         && (n == |s| || Announces(s[n..]))
  }

  function LastType(prev: uint64, ps: seq<KeyValue.Pair>): uint64
  {
    if ps == [] then prev else ps[|ps| - 1].typ
  }

  /** Whole pairs, then a part of one that ends at the start of a read. */
  predicate EndsTorn(prev: uint64, s: seq<byte>)
  {
    exists n | 0 <= n < |s| ::
      var front := KeyValue.DecodeFrom(prev, s[..n]);
      front.Ok? && Torn(LastType(prev, front.value), s[n..])
  }

  lemma VarintEnds(s: seq<byte>)
    ensures Varint.Read(s) == Fail(EOF) <==> s == [] || Announces(s)
  {}

  lemma ValueEnds(t: uint64, s: seq<byte>)
    ensures KeyValue.DecodeValue(t, s) == Fail(EOF) <==> s == [] || Announces(s)
  {
    hide Varint.Read, Announces;
    VarintEnds(s);
  }

  lemma PairEnds(prev: uint64, s: seq<byte>)
    requires s != []
    ensures KeyValue.DecodePair(prev, s) == Fail(EOF) <==> Torn(prev, s)
  {
    hide Varint.Read, Varint.Value, KeyValue.DecodeValue, Announces;
    VarintEnds(s);
    var p := Varint.Read(s);
    if p.Got? {
      var e := Varint.ReadConsumes(s);
      var n := |e|;
      assert s[..n] == e && s[n..] == p.rest;
      if prev + p.value < TWO_64 { ValueEnds(prev + p.value, p.rest); }
      forall m | 1 <= m <= |s| && Varint.IsEncoding(s[..m]) ensures m == n {
        assert s[..m] + s[m..] == e + s[n..];
        Varint.PrefixFree(s[..m], e, s[m..], s[n..]);
      }
    } else {
      forall m | 1 <= m <= |s| && Varint.IsEncoding(s[..m]) ensures false {
        assert s[..m] + s[m..] == s;
        Varint.ReadSplits(s[..m], s[m..]);
      }
    }
  }

  /** What a decoded pair consumed is decoded the same in front of anything. */
  lemma PairSplits(prev: uint64, s: seq<byte>, t: seq<byte>)
    requires KeyValue.DecodePair(prev, s).Got?
    ensures var p := KeyValue.DecodePair(prev, s); var used := s[..|s| - |p.rest|];
            s == used + p.rest && KeyValue.DecodePair(prev, used + t) == Got(p.value, t)
  {
    hide Varint.Read, Varint.Value, KeyValue.DecodeValue;
    var p := KeyValue.DecodePair(prev, s);
    var e := Varint.ReadConsumes(s);
    var s1 := Varint.Read(s).rest;
    ValueSplits(p.value.typ, s1, t);
    var used := e + s1[..|s1| - |p.rest|];
    assert s == used + p.rest && s[..|used|] == used;
    assert used + t == e + (s1[..|s1| - |p.rest|] + t);
    Varint.ReadSplits(e, s1[..|s1| - |p.rest|] + t);
  }

  lemma ValueSplits(typ: uint64, s: seq<byte>, t: seq<byte>)
    requires KeyValue.DecodeValue(typ, s).Got?
    ensures var p := KeyValue.DecodeValue(typ, s); var used := s[..|s| - |p.rest|];
            s == used + p.rest && KeyValue.DecodeValue(typ, used + t) == Got(p.value, t)
  {
    hide Varint.Read, Varint.Value, Varint.Encode, Varint.IsEncoding;
    var p := KeyValue.DecodeValue(typ, s);
    var e := Varint.ReadConsumes(s);
    var s1 := Varint.Read(s).rest;
    var bytes := s1[..|s1| - |p.rest|];
    assert s1 == bytes + p.rest;
    Regroup(s, e, bytes, p.rest, t);
    Varint.ReadSplits(e, bytes + t);
    if typ % 2 == 1 {
      assert (bytes + t)[..|bytes|] == bytes && (bytes + t)[|bytes|..] == t;
    } else {
      assert bytes + t == t;
    }
  }

  lemma Regroup(s: seq<byte>, e: seq<byte>, bytes: seq<byte>, rest: seq<byte>, t: seq<byte>)
    requires s == e + (bytes + rest)
    ensures s[..|s| - |rest|] == e + bytes && s == e + bytes + rest && e + bytes + t == e + (bytes + t)
  {}

  /** The decoder of key-value pairs fails with EOF on exactly these payloads. */
  lemma DecodeEnds(prev: uint64, s: seq<byte>)
    ensures KeyValue.DecodeFrom(prev, s) == Err(EOF) <==> EndsTorn(prev, s)
  {
    hide KeyValue.DecodePair, Torn;
    if KeyValue.DecodeFrom(prev, s) == Err(EOF) {
      var n := TearOf(prev, s);
    }
    forall n | 0 <= n < |s| && KeyValue.DecodeFrom(prev, s[..n]).Ok?
               && Torn(LastType(prev, KeyValue.DecodeFrom(prev, s[..n]).value), s[n..])
      ensures KeyValue.DecodeFrom(prev, s) == Err(EOF)
    {
      TornFails(prev, s[..n], s[n..]);
      assert s[..n] + s[n..] == s;
    }
  }

  lemma {:induction false} TearOf(prev: uint64, s: seq<byte>) returns (n: nat)
    requires KeyValue.DecodeFrom(prev, s) == Err(EOF)
    ensures n < |s| && KeyValue.DecodeFrom(prev, s[..n]).Ok?
    ensures Torn(LastType(prev, KeyValue.DecodeFrom(prev, s[..n]).value), s[n..])
    decreases |s|
  {
    hide KeyValue.DecodePair, Torn;
    var p := KeyValue.DecodePair(prev, s);
    if p.Fail? {
      PairEnds(prev, s);
      n := 0;
      assert s[..0] == [] && s[0..] == s;
    } else {
      var m := TearOf(p.value.typ, p.rest);
      var used := s[..|s| - |p.rest|];
      n := |used| + m;
      PairSplits(prev, s, p.rest[..m]);
      assert s[..n] == used + p.rest[..m] && s[n..] == p.rest[m..];
      LastOfMore(prev, p.value, KeyValue.DecodeFrom(p.value.typ, p.rest[..m]).value);
    }
  }

  lemma LastOfMore(prev: uint64, p: KeyValue.Pair, ps: seq<KeyValue.Pair>)
    ensures LastType(prev, [p] + ps) == LastType(p.typ, ps)
  {}

  lemma {:induction false} TornFails(prev: uint64, w: seq<byte>, t: seq<byte>)
    requires KeyValue.DecodeFrom(prev, w).Ok? && t != []
    requires Torn(LastType(prev, KeyValue.DecodeFrom(prev, w).value), t)
    ensures KeyValue.DecodeFrom(prev, w + t) == Err(EOF)
    decreases |w|
  {
    hide KeyValue.DecodePair, Torn;
    if w == [] {
      assert w + t == t;
      PairEnds(prev, t);
    } else {
      var p := KeyValue.DecodePair(prev, w);
      PairSplits(prev, w, p.rest + t);
      assert w + t == w[..|w| - |p.rest|] + (p.rest + t);
      LastOfMore(prev, p.value, KeyValue.DecodeFrom(p.value.typ, p.rest).value);
      TornFails(p.value.typ, p.rest, t);
    }
  }

  // ---------- the control stream ----------

  /** Message j is the first one that its decoder rejects. */
  predicate FirstRejected(fs: seq<Frame>, j: nat)
  {
    j < |fs| && DispatchError(fs[j]).Some? && forall i :: 0 <= i < j ==> DispatchError(fs[i]) == None
  }

  lemma {:induction false} LoopStopsAt(s: seq<byte>, j: nat)
    requires FirstRejected(Frames.ReadAll(s).0, j)
    ensures var fs := Frames.ReadAll(s).0;
            ControlLoop(s) == Outcome(Cuts.DispatchEvents(fs[..j]), DispatchError(fs[j]))
    decreases |s|
  {
    hide Frames.Read, DispatchError;
    var p := Frames.Read(s);
    var fs, rest := Frames.ReadAll(s).0, Frames.ReadAll(p.rest).0;
    assert fs == [p.value] + rest;
    if j > 0 {
      assert forall i :: 0 <= i < j - 1 ==> rest[i] == fs[i + 1];
      LoopStopsAt(p.rest, j - 1);
      assert fs[..j][0] == p.value && fs[..j][1..] == rest[..j - 1];
    }
  }

  /** On every control stream with a message that is rejected, exactly the
      messages before the first such one are dispatched. It is a SETUP, and
      nothing is posted exactly when its payload is whole pairs and then a part
      of one that ends at the start of a read. */
  lemma SilentRejection(s: seq<byte>, j: nat)
    requires Varint.Read(s).Got? && Varint.Read(s).value == SETUP
    requires FirstRejected(Frames.ReadAll(s).0, j)
    ensures var fs := Frames.ReadAll(s).0;
            && fs[j].msgType == SETUP
            && HandleUni(s).events == Cuts.DispatchEvents(fs[..j])
            && (Posted(HandleUni(s).err) == None <==> EndsTorn(0, fs[j].payload))
  {
    hide Varint.Read, Frames.ReadAll, HandleUni, ControlLoop, EndsTorn, KeyValue.DecodeFrom;
    LoopStopsAt(s, j);
    Cuts.FirstVarintIsShared(s);
    DecodeEnds(0, Frames.ReadAll(s).0[j].payload);
  }

  /** Such streams exist: any acceptable messages that start with a SETUP, or
      none, then a SETUP with one odd type and nothing behind it, then anything. */
  lemma SilentRejectionHappens(fs: seq<Frame>, rest: seq<byte>)
    requires forall f :: f in fs ==> |f.payload| <= MAX_FRAME_LEN && DispatchError(f) == None
    requires fs != [] ==> fs[0].msgType == SETUP
    ensures var s := EncodeAll(fs) + (Frames.Encode(Frame(SETUP, [1])) + rest);
            HandleUni(s).events == Cuts.DispatchEvents(fs) && Posted(HandleUni(s).err) == None
  {
    hide Varint.Read, Varint.Encode, HandleUni, Frames.Read, EncodeAll, DispatchError, Cuts.DispatchEvents;
    var bad := Frame(SETUP, [1]);
    var s := EncodeAll(fs) + (Frames.Encode(bad) + rest);
    ReadAllAfter(fs, Frames.Encode(bad) + rest);
    Frames.RoundTrip(bad, rest);
    var all := Frames.ReadAll(s).0;
    assert all == fs + ([bad] + Frames.ReadAll(rest).0);
    assert DispatchError(bad) == Some(EOF) && EndsTorn(0, [1]) by { OddTypeAlone(); }
    StartsWithSetup(fs, bad, rest);
    assert forall i :: 0 <= i < |fs| ==> all[i] in fs;
    SilentRejection(s, |fs|);
    assert all[..|fs|] == fs;
  }

  lemma OddTypeAlone()
    ensures DispatchError(Frame(SETUP, [1])) == Some(EOF) && EndsTorn(0, [1])
  {
    DecodeEnds(0, [1]);
  }

  lemma StartsWithSetup(fs: seq<Frame>, bad: Frame, rest: seq<byte>)
    requires bad.msgType == SETUP && (fs != [] ==> fs[0].msgType == SETUP)
    ensures var p := Varint.Read(EncodeAll(fs) + (Frames.Encode(bad) + rest)); p.Got? && p.value == SETUP
  {
    hide Varint.Read, Varint.Encode, ToBytes;
    var s := EncodeAll(fs) + (Frames.Encode(bad) + rest);
    var f := if fs == [] then bad else fs[0];
    var e := Varint.Encode(SETUP);
    assert e <= Frames.Encode(f) <= s;
    assert s == e + s[|e|..];
    Varint.RoundTrip(SETUP, s[|e|..]);
  }
}
