// Control messages on the wire (draft-ietf-moq-transport-18, section 10): a
// varint type, a 16-bit big-endian length, the body.
module Frames {
  import opened Bytes
  import opened Input
  import opened Output
  import Varint

  const MAX_FRAME_LEN: nat := 0xFFFF

  datatype Frame = Frame(msgType: uint64, payload: seq<byte>)

  /** The bytes of one control message. */
  function Encode(f: Frame): seq<byte>
  {
    Varint.Encode(f.msgType) + ToBytes(|f.payload|, 2) + f.payload
  }

  /** A 16-bit length, then that many bytes. */
  function ReadBody(s: seq<byte>): (p: Parse<seq<byte>>)
    ensures p.Got? ==> |p.rest| < |s|
  {
    match Take(s, 2)
    case Fail(e) => Fail(e)
    case Got(len, rest) => Take(rest, FromBytes(len))
  }

  function Read(s: seq<byte>): (p: Parse<Frame>)
    ensures p.Got? ==> |p.rest| < |s|
  {
    match Varint.Read(s)
    case Fail(e) => Fail(e)
    case Got(t, rest) =>
      match ReadBody(rest)
      case Fail(e) => Fail(e)
      case Got(body, rest') => Got(Frame(t, body), rest')
  }

  method WriteFrame(w: Writer, msgType: uint64, payload: seq<byte>) returns (err: Option<Error>)
    modifies w
    ensures |payload| > 65535 ==> err == Some(PayloadTooLarge) && w.out == old(w.out) && w.fate == old(w.fate)
    ensures |payload| <= 65535 && Accepts(old(w.fate)) ==>
              err == None && w.out == old(w.out) + Encode(Frame(msgType, payload))
    ensures |payload| <= 65535 && !Accepts(old(w.fate)) ==> err == Some(WriteFailed) && w.out == old(w.out)
  {
    if |payload| > MAX_FRAME_LEN {
      return Some(PayloadTooLarge);
    }
    var buf := Varint.AppendVarint([], msgType);
    buf := buf + ToBytes(|payload|, 2);
    buf := buf + payload;
    err := w.Write(buf);
  }

  method ReadFrameBody(r: Reader) returns (res: Result<seq<byte>>)
    requires r.Valid()
    modifies r`pos
    ensures Agrees(res, ReadBody(old(r.Rest())), r)
  {
    var lenBuf := r.ReadFull(2);
    if lenBuf.Err? {
      return Err(lenBuf.error);
    }
    var length := FromBytes(lenBuf.value);
    res := r.ReadFull(length);
  }

  method ReadFrame(r: Reader) returns (res: Result<Frame>)
    requires r.Valid()
    modifies r`pos
    ensures Agrees(res, Read(old(r.Rest())), r)
  {
    var msgType := Varint.ReadVarint(r);
    if msgType.Err? {
      return Err(msgType.error);
    }
    var payload := ReadFrameBody(r);
    if payload.Err? {
      return Err(payload.error);
    }
    return Ok(Frame(msgType.value, payload.value));
  }

  // ---------- round trips ----------

  /** The length is two bytes, the more significant one first. */
  lemma LengthIsBigEndian(f: Frame)
    requires |f.payload| <= 65535
    ensures Encode(f) == Varint.Encode(f.msgType) + [|f.payload| / 256, |f.payload| % 256] + f.payload
  {
    var n := |f.payload|;
    assert ToBytes(n, 2) == ToBytes(n / 256, 1) + [n % 256];
    assert ToBytes(n / 256, 1) == ToBytes(n / 256 / 256, 0) + [n / 256 % 256];
  }

  lemma BodyRoundTrip(payload: seq<byte>, suffix: seq<byte>)
    requires |payload| <= MAX_FRAME_LEN
    ensures ReadBody(ToBytes(|payload|, 2) + payload + suffix) == Got(payload, suffix)
  {
    hide ToBytes, FromBytes;
    var len := ToBytes(|payload|, 2);
    assert Pow256(2) == 0x1_0000;
    FromToBytes(|payload|, 2);
    assert len + payload + suffix == len + (payload + suffix);
    TakeExact(len, payload + suffix);
    TakeExact(payload, suffix);
  }

  lemma RoundTrip(f: Frame, suffix: seq<byte>)
    requires |f.payload| <= MAX_FRAME_LEN
    ensures Read(Encode(f) + suffix) == Got(f, suffix)
  {
    var body := ToBytes(|f.payload|, 2) + f.payload + suffix;
    Varint.RoundTrip(f.msgType, body);
    assert Encode(f) + suffix == Varint.Encode(f.msgType) + body;
    BodyRoundTrip(f.payload, suffix);
  }

  /** Reading messages until a read fails: the messages and the final error. */
  function ReadAll(s: seq<byte>): (r: (seq<Frame>, Error))
  {
    match Read(s)
    case Fail(e) => ([], e)
    case Got(f, rest) =>
      var (fs, e) := ReadAll(rest);
      ([f] + fs, e)
  }

  function EncodeAll(fs: seq<Frame>): seq<byte>
  {
    if fs == [] then [] else Encode(fs[0]) + EncodeAll(fs[1..])
  }

  /** Messages written back to back are read back one by one, and the stream
      then ends cleanly. */
  lemma {:induction false} SequenceRoundTrip(fs: seq<Frame>)
    requires forall f :: f in fs ==> |f.payload| <= MAX_FRAME_LEN
    ensures ReadAll(EncodeAll(fs)) == (fs, EOF)
  {
    if fs != [] {
      assert fs == [fs[0]] + fs[1..];
      RoundTrip(fs[0], EncodeAll(fs[1..]));
      SequenceRoundTrip(fs[1..]);
    }
  }

  // ---------- truncation ----------

  /** What a successful read consumed is read the same in front of anything. */
  lemma ReadSplits(s: seq<byte>, t: seq<byte>)
    requires Read(s).Got?
    ensures var used := s[..|s| - |Read(s).rest|];
            s == used + Read(s).rest && Read(used + t) == Got(Read(s).value, t)
  {
    hide Varint.Read, Varint.Value, FromBytes;
    var e := Varint.ReadConsumes(s);
    var s1 := Varint.Read(s).rest;
    var n := FromBytes(s1[..2]);
    var body := s1[2..][..n];
    var used := e + (s1[..2] + body);
    assert s1 == s1[..2] + (body + Read(s).rest);
    assert s == used + Read(s).rest;
    assert s[..|used|] == used;
    assert used + t == e + (s1[..2] + (body + t));
    Varint.ReadSplits(e, s1[..2] + (body + t));
    TakeExact(s1[..2], body + t);
    TakeExact(body, t);
  }

  lemma ReadExtends(s: seq<byte>, t: seq<byte>)
    requires Read(s).Got?
    ensures Read(s + t) == Got(Read(s).value, Read(s).rest + t)
  {
    hide Read;
    ReadSplits(s, Read(s).rest + t);
    var used := s[..|s| - |Read(s).rest|];
    assert s + t == used + (Read(s).rest + t);
  }

  /** The number of messages that lie wholly within the first k bytes. */
  function WholeMessages(s: seq<byte>, k: nat): nat
    decreases |s|
  {
    match Read(s)
    case Fail(_) => 0
    case Got(_, rest) => if |s| - |rest| <= k then 1 + WholeMessages(rest, k - (|s| - |rest|)) else 0
  }

  /** Cutting any stream: exactly the messages wholly before the cut are read. */
  lemma {:induction false} ReadAllCut(s: seq<byte>, k: nat)
    requires k <= |s|
    ensures WholeMessages(s, k) <= |ReadAll(s).0|
    ensures ReadAll(s[..k]).0 == ReadAll(s).0[..WholeMessages(s, k)]
    decreases |s|
  {
    hide Read;
    var cut, p := s[..k], Read(s);
    assert cut + s[k..] == s;
    if Read(cut).Got? { ReadExtends(cut, s[k..]); }
    if p.Got? && |s| - |p.rest| <= k {
      var n := |s| - |p.rest|;
      ReadSplits(s, p.rest[..k - n]);
      assert cut == s[..n] + p.rest[..k - n];
      ReadAllCut(p.rest, k - n);
      assert ReadAll(s).0 == [p.value] + ReadAll(p.rest).0;
    }
  }

  /** Messages in front of anything are read first. */
  lemma {:induction false} ReadAllAfter(fs: seq<Frame>, t: seq<byte>)
    requires forall f :: f in fs ==> |f.payload| <= MAX_FRAME_LEN
    ensures ReadAll(EncodeAll(fs) + t) == (fs + ReadAll(t).0, ReadAll(t).1)
  {
    hide Read, Encode;
    if fs == [] {
      assert EncodeAll(fs) + t == t && fs + ReadAll(t).0 == ReadAll(t).0;
    } else {
      var more := EncodeAll(fs[1..]) + t;
      assert EncodeAll(fs) + t == Encode(fs[0]) + more;
      assert fs == [fs[0]] + fs[1..];
      RoundTrip(fs[0], more);
      ReadAllAfter(fs[1..], t);
      assert [fs[0]] + (fs[1..] + ReadAll(t).0) == fs + ReadAll(t).0;
    }
  }
}
