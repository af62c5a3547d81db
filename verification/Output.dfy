// A byte sink: io.Writer. Whether a write succeeds is decided outside.
module Output {
  import opened Bytes

  /** The fate of the writes to come, in order; those after the list succeed. */
  type Fate = seq<bool>

  predicate Accepts(fate: Fate)
  {
    fate == [] || fate[0]
  }

  function Later(fate: Fate): Fate
  {
    if fate == [] then [] else fate[1..]
  }

  class Writer {
    var out: seq<byte>
    var fate: Fate

    constructor (fate: Fate)
      ensures out == [] && this.fate == fate
    {
      this.out := [];
      this.fate := fate;
    }

    /** A write appends all of its bytes or none. */
    method Write(bytes: seq<byte>) returns (err: Option<Error>)
      modifies this
      ensures fate == Later(old(fate))
      ensures Accepts(old(fate)) ==> err == None && out == old(out) + bytes
      ensures !Accepts(old(fate)) ==> err == Some(WriteFailed) && out == old(out)
    {
      var ok := Accepts(fate);
      fate := Later(fate);
      if !ok {
        return Some(WriteFailed);
      }
      out := out + bytes;
      return None;
    }
  }

  /** How many of m writes happen, if the first one that fails is the last. */
  function WritesDone(fate: Fate, m: nat): (n: nat)
    ensures n <= m
  {
    if m == 0 then 0
    else
      var n := WritesDone(fate, m - 1);
      if n == m - 1 && (m - 1 < |fate| ==> fate[m - 1]) then m else n
  }

  function FateAfter(fate: Fate, m: nat): Fate
  {
    if m <= |fate| then fate[m..] else []
  }

  /** The writes done are exactly those before the first refusal. */
  lemma {:induction false} WritesDoneIff(fate: Fate, m: nat, k: nat)
    requires k <= m
    ensures k <= WritesDone(fate, m) <==> forall j :: 0 <= j < k && j < |fate| ==> fate[j]
  {
    if k < m {
      WritesDoneIff(fate, m - 1, k);
    } else if m > 0 {
      WritesDoneIff(fate, m - 1, m - 1);
    }
  }

  /** If m writes were done, the next one is as its turn says. */
  lemma OneMoreWrite(fate: Fate, m: nat)
    requires WritesDone(fate, m) == m
    ensures WritesDone(fate, m + 1) == if Accepts(FateAfter(fate, m)) then m + 1 else m
    ensures Later(FateAfter(fate, m)) == FateAfter(fate, m + 1)
  {}
}
