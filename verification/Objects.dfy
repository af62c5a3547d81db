// Objects as the step system sees them: the delta, and a status or a payload.
module Objects {
  import opened Subgroup
  import Session

  function Seen(o: SubgroupObject): Session.Object
  {
    Session.Object(o.objectIDDelta, if o.isStatusObject then Session.Status else Session.Data(o.payload))
  }

  function AllSeen(os: seq<SubgroupObject>): (r: seq<Session.Object>)
    ensures |r| == |os| && forall k :: 0 <= k < |os| ==> r[k] == Seen(os[k])
  {
    if os == [] then [] else [Seen(os[0])] + AllSeen(os[1..])
  }

  lemma {:induction false} AllSeenAppend(a: seq<SubgroupObject>, b: seq<SubgroupObject>)
    ensures AllSeen(a + b) == AllSeen(a) + AllSeen(b)
  {
    if a == [] {
      assert a + b == b;
    } else {
      assert (a + b)[1..] == a[1..] + b;
      AllSeenAppend(a[1..], b);
    }
  }
}
