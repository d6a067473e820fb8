/**
 The reader and the writer that the decoders and encoders run through: an offset that moves over
 a buffer, and a buffer that grows. A read that fails ends the decoding of the whole packet.
 */
module BinaryIO {
  import opened Basics
  import opened Wire
  import Framing

  const WORD64 := 0x1_0000_0000_0000_0000

  /** What a read at `offset` yields, and where it leaves the offset. */
  ghost predicate Moves<T>(buf: seq<Byte>, before: nat, after: nat, read: seq<Byte> -> Read<T>, r: Option<T>) {
    && before <= |buf| && after <= |buf|
    && match read(buf[before..])
       case Fail => r.None?
       case Got(v, rest) => r == Some(v) && rest == buf[after..]
  }

  /** LEB128 as the loop accumulates it: what k groups gave so far, plus what the rest will give. */
  ghost predicate Accumulating(buf: seq<Byte>, start: nat, offset: nat, total: nat, k: nat) {
    && start <= offset <= |buf|
    && ReadGroups(buf[start..]) ==
       match ReadGroups(buf[offset..]) case Fail => Fail case Got(v, rest) => Got(total + Framing.Shift(v, k), rest)
  }

  lemma AccumulateGroup(buf: seq<Byte>, start: nat, offset: nat, total: nat, k: nat)
    requires Accumulating(buf, start, offset, total, k) && offset < |buf|
    ensures buf[offset] >= 128 ==> Accumulating(buf, start, offset + 1, total + Framing.Shift(buf[offset] - 128, k), k + 1)
    ensures buf[offset] < 128 ==> ReadGroups(buf[start..]) == Got(total + Framing.Shift(buf[offset], k), buf[offset + 1..])
  {
    assert buf[offset..][1..] == buf[offset + 1..];
    if buf[offset] >= 128 {
      match ReadGroups(buf[offset + 1..])
      case Fail =>
      case Got(v, rest) => Framing.ShiftSum(buf[offset] - 128, v, k);
    }
  }

  lemma ModSum(a: nat, b: nat)
    ensures (a % WORD64 + b) % WORD64 == (a + b) % WORD64
  {
    var q := a / WORD64;
    assert a == q * WORD64 + a % WORD64;
    assert (a + b) / WORD64 == q + (a % WORD64 + b) / WORD64;
  }

  /** One round of the loop, with the 64-bit accumulator beside the exact one. */
  lemma UlebStep(buf: seq<Byte>, start: nat, offset: nat, total: nat, result: nat, k: nat, low: nat)
    requires Accumulating(buf, start, offset, total, k) && offset < |buf| && result == total % WORD64
    requires low == if buf[offset] < 128 then buf[offset] else buf[offset] - 128
    ensures (result + Framing.Shift(low, k)) % WORD64 == (total + Framing.Shift(low, k)) % WORD64
    ensures if buf[offset] < 128 then ReadUleb(buf[start..]) == Got((result + Framing.Shift(low, k)) % WORD64, buf[offset + 1..])
            else Accumulating(buf, start, offset + 1, total + Framing.Shift(low, k), k + 1)
  {
    AccumulateGroup(buf, start, offset, total, k);
    ModSum(total, Framing.Shift(low, k));
  }

  lemma UlebEnd(buf: seq<Byte>, start: nat, offset: nat, total: nat, k: nat)
    requires Accumulating(buf, start, offset, total, k) && offset == |buf|
    ensures ReadUleb(buf[start..]) == Fail
  {
  }

  class BinaryReader {
    const buf: seq<Byte>
    var offset: nat

    constructor (buf: seq<Byte>)
      ensures this.buf == buf && offset == 0
    {
      this.buf, offset := buf, 0;
    }

    method TakeBytes(n: nat) returns (r: Option<seq<Byte>>)
      requires offset <= |buf|
      modifies this
      ensures offset <= |buf|
      ensures r.Some? <==> old(offset) + n <= |buf|
      ensures r.Some? ==> offset == old(offset) + n && r.value == buf[old(offset)..offset]
    {
      if offset + n > |buf| { return None; }
      r := Some(buf[offset..offset + n]);
      offset := offset + n;
    }

    method U8() returns (r: Option<Byte>)
      requires offset <= |buf|
      modifies this
      ensures Moves(buf, old(offset), offset, ReadU8, r)
      ensures r.Some? <==> old(offset) < |buf|
      ensures r.Some? ==> offset == old(offset) + 1 && r.value == buf[old(offset)]
    {
      if offset + 1 > |buf| { return None; }
      r := Some(buf[offset]);
      assert buf[offset..][1..] == buf[offset + 1..];
      offset := offset + 1;
    }

    method Bool() returns (r: Option<bool>)
      requires offset <= |buf|
      modifies this
      ensures Moves(buf, old(offset), offset, ReadBool, r)
    {
      var b := U8();
      return match b case None => None case Some(v) => Some(v == 1);
    }

    method Bits32() returns (r: Option<U32>)
      requires offset <= |buf|
      modifies this
      ensures Moves(buf, old(offset), offset, ReadU32, r)
    {
      var b := TakeBytes(4);
      if b.None? { return None; }
      var v := b.value;
      assert buf[old(offset)..][4..] == buf[offset..];
      return Some((v[0] as int) + (v[1] as int) * 256 + (v[2] as int) * 0x1_0000 + (v[3] as int) * 0x100_0000);
    }

    method Int32() returns (r: Option<I32>)
      requires offset <= |buf|
      modifies this
      ensures Moves(buf, old(offset), offset, ReadI32, r)
    {
      var v := Bits32();
      if v.None? { return None; }
      var u: int := v.value;
      var signed: I32 := if u < 0x8000_0000 then u else u - 0x1_0000_0000;
      return Some(signed);
    }

    /** The variable-length loop with its 64-bit accumulator. */
    method Uleb() returns (r: Option<nat>)
      requires offset <= |buf|
      modifies this
      ensures Moves(buf, old(offset), offset, ReadUleb, r)
    {
      var result: nat, k: nat := 0, 0;
      ghost var total: nat := 0;
      ghost var start := offset;
      while offset < |buf|
        invariant Accumulating(buf, start, offset, total, k)
        invariant result == total % WORD64
        decreases |buf| - offset
      {
        var b := buf[offset];
        var low := if b < 128 then b else b - 128;
        UlebStep(buf, start, offset, total, result, k, low);
        offset := offset + 1;
        total := total + Framing.Shift(low, k);
        result := (result + Framing.Shift(low, k)) % WORD64;
        if b < 128 { return Some(result); }
        k := k + 1;
      }
      UlebEnd(buf, start, offset, total, k);
      return None;
    }

    method Len() returns (r: Option<nat>)
      requires offset <= |buf|
      modifies this
      ensures Moves(buf, old(offset), offset, ReadLength, r)
    {
      var v := Uleb();
      if v.None? || v.value > MAX_LENGTH { return None; }
      return v;
    }

    method Text() returns (r: Option<seq<Byte>>)
      requires offset <= |buf|
      modifies this
      ensures Moves(buf, old(offset), offset, ReadString, r)
    {
      var n := Len();
      if n.None? { return None; }
      ghost var middle := offset;
      r := TakeBytes(n.value);
      if r.Some? {
        assert buf[middle..][..n.value] == r.value && buf[middle..][n.value..] == buf[offset..];
      }
    }
  }

  class BinaryWriter {
    var buf: seq<Byte>

    constructor ()
      ensures buf == []
    {
      buf := [];
    }

    method WriteUleb(n: nat)
      modifies this
      ensures buf == old(buf) + PutUleb(n)
    {
      var v := n;
      while v >= 128
        invariant buf + PutUleb(v) == old(buf) + PutUleb(n)
      {
        buf := buf + [v % 128 + 128];
        v := v / 128;
      }
      buf := buf + [v];
    }

    method WriteString(s: seq<Byte>)
      modifies this
      ensures buf == old(buf) + PutString(s)
    {
      WriteUleb(|s|);
      buf := buf + s;
    }

    /** Refuses a text that is too long, writing nothing. */
    method WriteVarchar(max: nat, s: seq<Byte>) returns (ok: bool)
      modifies this
      ensures ok <==> |s| <= max
      ensures buf == if ok then old(buf) + PutString(s) else old(buf)
    {
      if |s| > max { return false; }
      WriteString(s);
      return true;
    }
  }
}
