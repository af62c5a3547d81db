// The arithmetic of delta-coded object IDs: wrapping sums, and what the
// gap-hint counter counts.
module ObjectIDs {
  import opened Bytes
  import opened Input
  import opened Objects
  import opened Subgroup
  import Counters
  import Varint

  /** Each object's ID follows from its delta and the ID before it. */
  predicate Chained(os: seq<SubgroupObject>)
  {
    ChainedAfter(None, os)
  }

  predicate ChainedAfter(prev: Option<uint64>, os: seq<SubgroupObject>)
  {
    forall k :: 0 <= k < |os| ==> os[k].objectID == NextID(Before(prev, os, k), os[k].objectIDDelta)
  }

  /** The ID before object k. */
  function Before(prev: Option<uint64>, os: seq<SubgroupObject>, k: nat): Option<uint64>
    requires k <= |os|
  {
    if k == 0 then prev else Some(os[k - 1].objectID)
  }

  /** Whatever the bytes are, the objects read from them form a chain. */
  lemma {:induction false} ReadObjectsChain(hasExtensions: bool, prev: Option<uint64>, s: seq<byte>)
    ensures ChainedAfter(prev, ReadObjects(hasExtensions, prev, s).0)
    decreases |s|
  {
    hide ReadObject;
    var p := ReadObject(hasExtensions, prev, s);
    if p.Got? {
      IDOfObject(hasExtensions, prev, s);
      ReadObjectsChain(hasExtensions, Some(p.value.objectID), p.rest);
      ChainGrows(prev, p.value, ReadObjects(hasExtensions, Some(p.value.objectID), p.rest).0);
    }
  }

  lemma ChainGrows(prev: Option<uint64>, o: SubgroupObject, rest: seq<SubgroupObject>)
    requires o.objectID == NextID(prev, o.objectIDDelta) && ChainedAfter(Some(o.objectID), rest)
    ensures ChainedAfter(prev, [o] + rest)
  {
    hide NextID;
    var os := [o] + rest;
    forall k | 0 <= k < |os| ensures os[k].objectID == NextID(Before(prev, os, k), os[k].objectIDDelta) {
      if k > 0 {
        assert os[k] == rest[k - 1];
        assert Before(prev, os, k) == Before(Some(o.objectID), rest, k - 1);
      }
    }
  }

  lemma IDOfObject(hasExtensions: bool, prev: Option<uint64>, s: seq<byte>)
    requires ReadObject(hasExtensions, prev, s).Got?
    ensures var o := ReadObject(hasExtensions, prev, s).value; o.objectID == NextID(prev, o.objectIDDelta)
  {}

  /** The unbounded sum of the deltas. */
  function SumDeltas(os: seq<SubgroupObject>): nat
  {
    if os == [] then 0 else SumDeltas(os[..|os| - 1]) + os[|os| - 1].objectIDDelta
  }

  /** The ID that object k would have without wrapping. */
  function Unwrapped(os: seq<SubgroupObject>, k: nat): nat
    requires k < |os|
  {
    SumDeltas(os[..k + 1]) + k
  }

  lemma UnwrappedStep(os: seq<SubgroupObject>, k: nat)
    requires k < |os|
    ensures Unwrapped(os, k) == (if k == 0 then 0 else Unwrapped(os, k - 1) + 1) + os[k].objectIDDelta
  {
    assert os[..k + 1][..k] == os[..k];
    assert k == 0 ==> SumDeltas(os[..k]) == 0;
  }

  /** Object k has the ID sum of the first k + 1 deltas, plus k, modulo 2^64. */
  lemma {:induction false} IDIsSum(os: seq<SubgroupObject>, k: nat)
    requires Chained(os) && k < |os|
    ensures os[k].objectID == Unwrapped(os, k) % TWO_64
  {
    hide Unwrapped, Add64;
    UnwrappedStep(os, k);
    if k > 0 {
      IDIsSum(os, k - 1);
      AddWrapped(Unwrapped(os, k - 1), os[k].objectIDDelta);
      AddWrapped(Unwrapped(os, k - 1) + os[k].objectIDDelta, 1);
    }
  }

  lemma {:induction false} UnwrappedGrows(os: seq<SubgroupObject>, j: nat, k: nat)
    requires j < k < |os|
    ensures Unwrapped(os, j) < Unwrapped(os, k)
    decreases k
  {
    UnwrappedStep(os, k);
    if j < k - 1 { UnwrappedGrows(os, j, k - 1); }
  }

  predicate IncreasingIDs(os: seq<SubgroupObject>)
  {
    forall j, k :: 0 <= j < k < |os| ==> os[j].objectID < os[k].objectID
  }

  /** The IDs strictly increase exactly when the sum never reaches 2^64. */
  lemma IncreasingIff(os: seq<SubgroupObject>)
    requires Chained(os) && os != []
    ensures IncreasingIDs(os) <==> SumDeltas(os) + |os| - 1 < TWO_64
  {
    hide Chained;
    var last := |os| - 1;
    assert os[..last + 1] == os;
    if Unwrapped(os, last) < TWO_64 {
      forall j, k | 0 <= j < k < |os| ensures os[j].objectID < os[k].objectID {
        UnwrappedGrows(os, j, k);
        if k < last { UnwrappedGrows(os, k, last); }
        IDInRange(os, j);
        IDInRange(os, k);
      }
    } else {
      var k := FirstWrap(os, last);
      WrapDrops(os, k);
    }
  }

  lemma IDInRange(os: seq<SubgroupObject>, k: nat)
    requires Chained(os) && k < |os| && Unwrapped(os, k) < TWO_64
    ensures os[k].objectID == Unwrapped(os, k)
  {
    hide Chained, Unwrapped;
    IDIsSum(os, k);
  }

  /** The first ID to wrap is not larger than the one before it. */
  lemma WrapDrops(os: seq<SubgroupObject>, k: nat)
    requires Chained(os) && 0 < k < |os| && Unwrapped(os, k - 1) < TWO_64 <= Unwrapped(os, k)
    ensures os[k].objectID <= os[k - 1].objectID
  {
    hide Chained, Unwrapped;
    IDInRange(os, k - 1);
    UnwrappedStep(os, k);
    IDIsSum(os, k);
  }

  /** If some unwrapped ID is out of range, there is a first one, and it is
      not the first object's. */
  lemma {:induction false} FirstWrap(os: seq<SubgroupObject>, n: nat) returns (k: nat)
    requires n < |os| && Unwrapped(os, n) >= TWO_64
    ensures 0 < k < |os| && Unwrapped(os, k - 1) < TWO_64 <= Unwrapped(os, k)
  {
    UnwrappedStep(os, n);
    if n > 0 && Unwrapped(os, n - 1) >= TWO_64 {
      k := FirstWrap(os, n - 1);
    } else {
      k := n;
    }
  }

  /** Without wrapping, the objects and the gaps between them fill the ID range. */
  lemma LastID(os: seq<SubgroupObject>)
    requires Chained(os) && os != [] && IncreasingIDs(os)
    ensures os[|os| - 1].objectID + 1 == |os| + SumDeltas(os)
  {
    hide Chained;
    IncreasingIff(os);
    assert os[..|os| - 1 + 1] == os;
    IDInRange(os, |os| - 1);
  }

  /** Two payload-free objects as a publisher may send them. */
  function TwoStatuses(d0: uint64, d1: uint64): seq<byte>
  {
    var zero := Varint.Encode(0);
    Varint.Encode(d0) + (zero + (zero + (Varint.Encode(d1) + (zero + zero))))
  }

  /** IDs can wrap on the wire: whenever the two deltas overflow, the second ID
      is read as one that is not larger than the first. */
  lemma IDsCanWrap(d0: uint64, d1: uint64)
    requires d0 + d1 + 1 >= TWO_64
    ensures var os := ReadObjects(false, None, TwoStatuses(d0, d1)).0;
            && |os| == 2 && os[0].objectID == d0 && os[1].objectID == d0 + d1 + 1 - TWO_64 <= d0
            && !IncreasingIDs(os)
  {
    hide Varint.Encode, Varint.Read, ReadObject;
    var zero := Varint.Encode(0);
    var s1 := Varint.Encode(d1) + (zero + zero);
    assert s1 == Varint.Encode(d1) + (zero + (zero + []));
    OneStatus(None, d0, s1);
    OneStatus(Some(d0), d1, []);
    EndOfObjects(false, Some(NextID(Some(d0), d1)));
    assert ReadObjects(false, Some(d0), s1).0 == [StatusAfter(Some(d0), d1)];
    var os := ReadObjects(false, None, TwoStatuses(d0, d1)).0;
    assert os == [StatusAfter(None, d0), StatusAfter(Some(d0), d1)];
    assert os[0].objectID >= os[1].objectID;
  }

  function StatusAfter(prev: Option<uint64>, d: uint64): SubgroupObject
  {
    SubgroupObject(NextID(prev, d), d, 0, [], [], 0, true)
  }

  lemma OneStatus(prev: Option<uint64>, d: uint64, rest: seq<byte>)
    ensures ReadObject(false, prev, Varint.Encode(d) + (Varint.Encode(0) + (Varint.Encode(0) + rest)))
            == Got(StatusAfter(prev, d), rest)
  {
    hide Varint.Encode, Varint.Read;
    var zero := Varint.Encode(0);
    Varint.RoundTrip(d, zero + (zero + rest));
    Varint.RoundTrip(0, zero + rest);
    Varint.RoundTrip(0, rest);
  }

  /** The ID of object k is not the one right after the ID before it; the
      first object is compared with 0. */
  predicate Skips(os: seq<SubgroupObject>, k: nat)
    requires k < |os|
  {
    os[k].objectID != Expected(Before(None, os, k))
  }

  function Expected(prev: Option<uint64>): uint64
  {
    if prev.None? then 0 else Add64(prev.value, 1)
  }

  ghost function Gaps(os: seq<SubgroupObject>): set<nat>
  {
    set k: nat | k < |os| && Skips(os, k)
  }

  lemma ChainedFront(os: seq<SubgroupObject>, n: nat)
    requires Chained(os) && n <= |os|
    ensures Chained(os[..n])
  {
    hide NextID;
    forall k | 0 <= k < n ensures os[..n][k].objectID == NextID(Before(None, os[..n], k), os[..n][k].objectIDDelta) {
      assert Before(None, os[..n], k) == Before(None, os, k);
    }
  }

  /** What handleSubgroupStream counts as gap hints: exactly the skipped IDs. */
  lemma {:induction false} GapHintsCountGaps(os: seq<SubgroupObject>)
    requires Chained(os)
    ensures Counters.Hints(AllSeen(os)) == |Gaps(os)|
  {
    hide Chained, Gaps, Counters.Hints, AllSeen;
    if os == [] {
      NoGaps();
    } else {
      var n := |os| - 1;
      ChainedFront(os, n);
      GapHintsCountGaps(os[..n]);
      HintsStep(os);
      GapsStep(os);
      GapsBelow(os[..n]);
    }
  }

  lemma NoGaps()
    ensures Counters.Hints(AllSeen([])) == 0 && Gaps([]) == {}
  {}

  lemma HintsStep(os: seq<SubgroupObject>)
    requires os != []
    ensures var n := |os| - 1;
            Counters.Hints(AllSeen(os))
            == Counters.Hints(AllSeen(os[..n])) + (if os[n].objectIDDelta > 0 then 1 else 0)
  {
    hide AllSeen;
    assert AllSeen(os)[..|os| - 1] == AllSeen(os[..|os| - 1]);
  }

  lemma GapsBelow(os: seq<SubgroupObject>)
    ensures |os| !in Gaps(os)
  {
    hide Skips;
  }

  lemma GapsStep(os: seq<SubgroupObject>)
    requires os != [] && Chained(os)
    ensures var n := |os| - 1;
            Gaps(os) == Gaps(os[..n]) + (if os[n].objectIDDelta > 0 then {n} else {})
  {
    hide NextID, Expected;
    var n := |os| - 1;
    DeltaShows(Before(None, os, n), os[n].objectIDDelta);
    assert os[n].objectID == NextID(Before(None, os, n), os[n].objectIDDelta);
    forall k: nat | k < n ensures Skips(os[..n], k) <==> Skips(os, k) {
      assert Before(None, os[..n], k) == Before(None, os, k);
    }
  }

  lemma DeltaShows(prev: Option<uint64>, d: uint64)
    ensures d > 0 <==> NextID(prev, d) != Expected(prev)
  {}
}
