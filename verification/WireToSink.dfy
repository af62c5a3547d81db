// From a publisher's objects to the sink and the counters: the encoder, the
// readers and the object loop put together, for a stream cut at any byte.
module WireToSink {
  import opened Bytes
  import opened Objects
  import opened Registry
  import opened Subgroup
  import Counters
  import Delivery
  import ObjectIDs
  import Output
  import Runner
  import Session
  import SinkOrder
  import Varint

  /** The unidirectional stream of a subgroup, from its type to its end. */
  ghost function Wire(h: Header, os: seq<PublishedObject>): seq<byte>
    requires WellFormed(h.hasExtensions, None, os)
  {
    Varint.Encode(h.typ) + (EncodeHeader(h) + EncodeObjects(h.hasExtensions, None, os))
  }

  /** The payloads that a publisher puts into a stream. */
  function Published(os: seq<PublishedObject>): seq<seq<byte>>
  {
    if os == [] then [] else (if os[0].body.Payload? then [os[0].body.bytes] else []) + Published(os[1..])
  }

  // ---------- objects as the object loop sees them ----------

  lemma {:induction false} PayloadsFromFront(o: Session.Object, os: seq<Session.Object>)
    ensures SinkOrder.Payloads([o] + os) == SinkOrder.PayloadOf(o) + SinkOrder.Payloads(os)
    decreases |os|
  {
    hide SinkOrder.Payloads, SinkOrder.PayloadOf;
    NoPayloads();
    if os == [] {
      assert [o] + os == [] + [o];
      SinkOrder.ReadAppend([], o);
    } else {
      var front, last := os[..|os| - 1], os[|os| - 1];
      PayloadsFromFront(o, front);
      assert os == front + [last] && [o] + os == ([o] + front) + [last];
      SinkOrder.ReadAppend(front, last);
      SinkOrder.ReadAppend([o] + front, last);
    }
  }

  lemma NoPayloads()
    ensures SinkOrder.Payloads([]) == []
  {}

  lemma NothingSeen()
    ensures AllSeen([]) == []
  {}

  lemma FirstSeen(o: SubgroupObject, os: seq<SubgroupObject>)
    ensures AllSeen([o] + os) == [Seen(o)] + AllSeen(os)
  {
    assert ([o] + os)[1..] == os;
  }

  lemma FirstRead(hasExtensions: bool, prev: Option<uint64>, os: seq<PublishedObject>, n: nat)
    requires WellFormed(hasExtensions, prev, os) && 0 < n <= |os|
    ensures AllAsRead(hasExtensions, prev, os)[..n]
            == [AsRead(prev, os[0])] + AllAsRead(hasExtensions, Some(os[0].id), os[1..])[..n - 1]
  {
    hide AsRead;
  }

  lemma PayloadSurvives(prev: Option<uint64>, o: PublishedObject)
    requires Fits(o.body) && (prev.Some? ==> prev.value < o.id)
    ensures SinkOrder.PayloadOf(Seen(AsRead(prev, o))) == if o.body.Payload? then [o.body.bytes] else []
  {}

  /** Reading keeps the payloads of the first n objects. */
  lemma {:induction false} PayloadsSurvive(hasExtensions: bool, prev: Option<uint64>, os: seq<PublishedObject>, n: nat)
    requires WellFormed(hasExtensions, prev, os) && n <= |os|
    ensures SinkOrder.Payloads(AllSeen(AllAsRead(hasExtensions, prev, os)[..n])) == Published(os[..n])
    decreases n
  {
    hide SinkOrder.Payloads, SinkOrder.PayloadOf, AsRead, AllAsRead, Seen, AllSeen, Fits;
    NoPayloads();
    NothingSeen();
    if n > 0 {
      var rest := AllAsRead(hasExtensions, Some(os[0].id), os[1..])[..n - 1];
      PayloadsSurvive(hasExtensions, Some(os[0].id), os[1..], n - 1);
      FirstRead(hasExtensions, prev, os, n);
      FirstSeen(AsRead(prev, os[0]), rest);
      PayloadsFromFront(Seen(AsRead(prev, os[0])), AllSeen(rest));
      PayloadSurvives(prev, os[0]);
      assert os[..n][0] == os[0] && os[..n][1..] == os[1..][..n - 1];
    }
  }

  // ---------- any bytes ----------

  lemma FirstSeenSome(os: seq<SubgroupObject>, n: nat)
    requires n <= |os|
    ensures AllSeen(os)[..n] == AllSeen(os[..n])
  {
    assert os == os[..n] + os[n..];
    AllSeenAppend(os[..n], os[n..]);
  }

  /** Whatever the bytes of a subgroup stream are, the loop adds to objectsSeen
      the objects it takes, and to gapHints those of them that skip an ID. */
  lemma GapHintsAreGaps(w: Delivery.Shared, sub: Option<Role>, hasExtensions: bool, s: seq<byte>)
    ensures var os := ReadObjects(hasExtensions, None, s).0;
            var d, n := Delivery.DeliverAll(w, sub, AllSeen(os)), Delivery.Taken(w, sub, AllSeen(os));
            && n <= |os| && (!d.failed ==> n == |os|)
            && d.w.objectsSeen == (w.objectsSeen + n) % TWO_64
            && d.w.gapHints == (w.gapHints + |ObjectIDs.Gaps(os[..n])|) % TWO_64
  {
    hide ReadObjects, Delivery.DeliverAll, Delivery.Taken, ObjectIDs.Gaps, Counters.Hints, Counters.Statuses, AllSeen;
    var os := ReadObjects(hasExtensions, None, s).0;
    var n := Delivery.Taken(w, sub, AllSeen(os));
    ObjectIDs.ReadObjectsChain(hasExtensions, None, s);
    ObjectIDs.ChainedFront(os, n);
    ObjectIDs.GapHintsCountGaps(os[..n]);
    FirstSeenSome(os, n);
    Delivery.CountersGain(w, sub, AllSeen(os));
  }

  // ---------- a publisher's stream ----------

  /** Cut a publisher's stream anywhere. Without its whole header it carries
      nothing; otherwise it carries the objects that are wholly there, and if it
      is mapped to the media subscription the sink gains exactly their payloads,
      up to the first write that fails. */
  lemma CutStreamIsDelivered(h: Header, os: seq<PublishedObject>, k: nat, w: Delivery.Shared)
    requires ValidHeader(h) && WellFormed(h.hasExtensions, None, os) && k <= |Wire(h, os)|
    ensures var cut := Wire(h, os)[..k];
            var n := |Varint.Encode(h.typ)| + |EncodeHeader(h)|;
            if k < n then Runner.UniContents(cut) == None
            else
              var whole := Whole(h.hasExtensions, None, os, k - n);
              && Runner.UniContents(cut).Some? && Runner.UniContents(cut).value.alias == h.trackAlias
              && |Runner.UniContents(cut).value.objects| == whole
              && (var d := Delivery.DeliverAll(w, Some(Media), Runner.UniContents(cut).value.objects);
                  var ps := Published(os[..whole]);
                  var written := Output.WritesDone(w.fate, |ps|);
                  d.w.sink == w.sink + Concat(ps[..written]) && (d.failed <==> written < |ps|))
  {
    hide Varint.Encode, Varint.Read, EncodeHeader, EncodeObjects, ReadHeader, ReadObjects, ValidHeader, WellFormed,
         AllAsRead, Whole, Delivery.DeliverAll, Concat, Published, AllSeen, SinkOrder.Payloads,
         Output.WritesDone;
    var typ, body := Varint.Encode(h.typ), EncodeHeader(h) + EncodeObjects(h.hasExtensions, None, os);
    var cut := Wire(h, os)[..k];
    Varint.RoundTrip(h.typ, body);
    if k < |typ| {
      assert cut + Wire(h, os)[k..] == Wire(h, os);
      if Varint.Read(cut).Got? { Varint.ReadExtends(cut, Wire(h, os)[k..]); }
    } else {
      assert cut == typ + body[..k - |typ|];
      Varint.RoundTrip(h.typ, body[..k - |typ|]);
      TruncatedStream(h, os, k - |typ|);
      var n := |typ| + |EncodeHeader(h)|;
      if k >= n {
        var whole := Whole(h.hasExtensions, None, os, k - n);
        PayloadsSurvive(h.hasExtensions, None, os, whole);
        Delivery.SinkGains(w, Some(Media), Runner.UniContents(cut).value.objects);
      }
    }
  }
}
