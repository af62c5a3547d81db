// A byte stream that ends: io.Reader together with io.ReadFull.
module Input {
  import opened Bytes

  /** The outcome of parsing a prefix of a byte string: the value and the
      bytes not consumed, or the error. */
  datatype Parse<+T> = Got(value: T, rest: seq<byte>) | Fail(error: Error)

  /** What io.ReadFull for n bytes does when s is all that the stream will deliver. */
  function Take(s: seq<byte>, n: nat): Parse<seq<byte>>
  {
    if n <= |s| then Got(s[..n], s[n..])
    else if s == [] then Fail(EOF)
    else Fail(UnexpectedEOF)
  }

  /** A parser that succeeds does not look past what it consumes. */
  lemma TakeExtends(s: seq<byte>, n: nat, t: seq<byte>)
    requires n <= |s|
    ensures Take(s + t, n) == Got(s[..n], s[n..] + t)
  {
    assert (s + t)[..n] == s[..n];
    assert (s + t)[n..] == s[n..] + t;
  }

  /** Asking for as many bytes as a is long takes a off the front of a + t. */
  lemma TakeExact(a: seq<byte>, t: seq<byte>)
    ensures Take(a + t, |a|) == Got(a, t)
  {
    assert (a + t)[..|a|] == a && (a + t)[|a|..] == t;
  }

  class Reader {
    const data: seq<byte>
    var pos: nat

    ghost predicate Valid()
      reads this
    {
      pos <= |data|
    }

    /** The bytes not yet read. */
    function Rest(): seq<byte>
      requires Valid()
      reads this
    {
      data[pos..]
    }

    constructor (data: seq<byte>)
      ensures Valid() && this.data == data && Rest() == data
    {
      this.data := data;
      this.pos := 0;
    }

    function Len(): (n: nat)
      requires Valid()
      reads this
      ensures n == |Rest()|
    {
      |data| - pos
    }

    /** io.ReadAll of a stream that ends. */
    method ReadAll() returns (bytes: seq<byte>)
      requires Valid()
      modifies this`pos
      ensures bytes == old(Rest()) && Valid() && Rest() == []
    {
      bytes := data[pos..];
      pos := |data|;
    }

    /** io.ReadFull: a failed read has consumed everything there was. */
    method ReadFull(n: nat) returns (res: Result<seq<byte>>)
      requires Valid()
      modifies this`pos
      ensures Agrees(res, Take(old(Rest()), n), this)
    {
      if n <= |data| - pos {
        assert Rest()[..n] == data[pos..pos + n];
        res := Ok(data[pos..pos + n]);
        pos := pos + n;
      } else {
        res := Err(if pos == |data| then EOF else UnexpectedEOF);
        pos := |data|;
      }
    }
  }

  /** A reading method did what the parsing function says: same value or same
      error, and the reader stands where the function stopped. */
  ghost predicate Agrees<T>(res: Result<T>, spec: Parse<T>, r: Reader)
    reads r
  {
    r.Valid() &&
    match spec
    case Got(v, rest) => res == Ok(v) && r.Rest() == rest
    case Fail(e) => res == Err(e) && r.Rest() == []
  }
}
