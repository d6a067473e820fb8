/** Frames: a body behind its length in LEB128 of at most five bytes, decoded from the head of a buffer. */
module Framing {
  import opened Basics
  import opened Wire

  const WORD := 0x1_0000_0000
  const DEFAULT_MAX_PAYLOAD := 2 * 1024 * 1024
  const MAX_PREFIX := 5

  /** The length is written as an unsigned 32-bit number. */
  function Frame(body: seq<Byte>): seq<Byte> {
    PutUleb(|body| % WORD) + body
  }

  datatype FrameError = InvalidLengthPrefix | PayloadTooLarge

  datatype Decoded = NeedMore | FrameOk(payload: seq<Byte>, remaining: seq<Byte>) | FrameFailed(error: FrameError)

  datatype Prefix = Incomplete | Overlong | Length(length: nat, size: nat)

  /** Reads a length of at most `left` bytes. */
  function ReadPrefix(b: seq<Byte>, left: nat): (p: Prefix)
    requires left >= 1
    ensures p.Length? ==> 1 <= p.size <= |b|
    decreases left
  {
    if b == [] then Incomplete
    else if b[0] < 128 then Length(b[0], 1)
    else if left == 1 then Overlong
    else match ReadPrefix(b[1..], left - 1)
      case Length(n, size) => Length(b[0] - 128 + 128 * n, size + 1)
      case other => other
  }

  function Limit(max: int): nat {
    if max <= 0 then DEFAULT_MAX_PAYLOAD else max
  }

  function TryDecode(b: seq<Byte>, max: int): (d: Decoded)
    ensures d.FrameOk? ==> |d.remaining| < |b| && d.remaining == b[|b| - |d.remaining|..]
  {
    match ReadPrefix(b, MAX_PREFIX)
    case Incomplete => NeedMore
    case Overlong => FrameFailed(InvalidLengthPrefix)
    case Length(n, size) =>
      if n > Limit(max) then FrameFailed(PayloadTooLarge)
      else if |b| - size < n then NeedMore
      else FrameOk(b[size..size + n], b[size + n..])
  }

  // ---- Framing and decoding undo each other ----

  function Power128(k: nat): nat {
    if k == 0 then 1 else 128 * Power128(k - 1)
  }

  lemma {:induction false} PrefixRead(n: nat, left: nat, rest: seq<Byte>)
    requires left >= 1 && n < Power128(left)
    ensures ReadPrefix(PutUleb(n) + rest, left) == Length(n, |PutUleb(n)|)
    decreases left
  {
    var b := PutUleb(n) + rest;
    if n >= 128 {
      assert Power128(1) == 128 * Power128(0);
      assert b[1..] == PutUleb(n / 128) + rest;
      PrefixRead(n / 128, left - 1, rest);
      assert n == 128 * (n / 128) + n % 128;
    }
  }

  lemma WordFits(n: nat)
    requires n < WORD
    ensures n < Power128(MAX_PREFIX)
  {
    assert Power128(1) == 128 && Power128(2) == 0x4000 && Power128(3) == 0x20_0000 && Power128(4) == 0x1000_0000;
  }

  lemma FrameDecodes(body: seq<Byte>, n: nat, rest: seq<Byte>, max: int)
    requires n == |body| % WORD
    ensures TryDecode(Frame(body) + rest, max) == if n <= Limit(max) then FrameOk(body[..n], body[n..] + rest) else FrameFailed(PayloadTooLarge)
  {
    var b := Frame(body) + rest;
    FramePrefix(body, n, rest, b, MAX_PREFIX);
    FrameCut(PutUleb(n), body, n, rest, b);
  }

  lemma FramePrefix(body: seq<Byte>, n: nat, rest: seq<Byte>, b: seq<Byte>, left: nat)
    requires n == |body| % WORD && b == Frame(body) + rest && left == MAX_PREFIX
    ensures ReadPrefix(b, left) == Length(n, |PutUleb(n)|)
  {
    assert b == PutUleb(n) + (body + rest);
    WordFits(n);
    PrefixRead(n, left, body + rest);
  }

  lemma FrameCut(prefix: seq<Byte>, body: seq<Byte>, n: nat, rest: seq<Byte>, b: seq<Byte>)
    requires n <= |body| && b == prefix + body + rest
    ensures b[|prefix|..|prefix| + n] == body[..n] && b[|prefix| + n..] == body[n..] + rest
  {
  }

  /**
   A frame decodes to its body and whatever follows exactly when the body is within the limit and its
   length within 32 bits; a longer body is refused as too large, or cut where its length wraps round.
   */
  lemma FrameRoundTrip(body: seq<Byte>, rest: seq<Byte>, max: int)
    ensures var n := |body| % WORD;
            TryDecode(Frame(body) + rest, max) == if n <= Limit(max) then FrameOk(body[..n], body[n..] + rest) else FrameFailed(PayloadTooLarge)
    ensures TryDecode(Frame(body) + rest, max) == FrameOk(body, rest) <==> |body| <= Limit(max) && |body| < WORD
  {
    var n := |body| % WORD;
    FrameDecodes(body, n, rest, max);
    if |body| < WORD {
      assert n == |body| && body[..n] == body && body[n..] + rest == rest;
    } else {
      assert |body[..n]| < |body|;
    }
  }

  // ---- More bytes never change what was decoded ----

  lemma {:induction false} PrefixExtends(b: seq<Byte>, more: seq<Byte>, left: nat)
    requires left >= 1 && !ReadPrefix(b, left).Incomplete?
    ensures ReadPrefix(b + more, left) == ReadPrefix(b, left)
    decreases left
  {
    if b[0] >= 128 && left > 1 {
      assert (b + more)[1..] == b[1..] + more;
      PrefixExtends(b[1..], more, left - 1);
    }
  }

  lemma DecodeExtends(b: seq<Byte>, more: seq<Byte>, max: int)
    ensures match TryDecode(b, max)
            case NeedMore => true
            case FrameOk(payload, remaining) => TryDecode(b + more, max) == FrameOk(payload, remaining + more)
            case FrameFailed(error) => TryDecode(b + more, max) == FrameFailed(error)
  {
    if !ReadPrefix(b, MAX_PREFIX).Incomplete? {
      PrefixExtends(b, more, MAX_PREFIX);
      if TryDecode(b, max).FrameOk? {
        var p := ReadPrefix(b, MAX_PREFIX);
        assert (b + more)[p.size..p.size + p.length] == b[p.size..p.size + p.length];
        assert (b + more)[p.size + p.length..] == b[p.size + p.length..] + more;
      }
    }
  }

  // ---- The loops ----

  /** n shifted left by k groups of seven bits. */
  function Shift(n: nat, k: nat): nat {
    if k == 0 then n else 128 * Shift(n, k - 1)
  }

  lemma {:induction false} ShiftSum(low: nat, n: nat, k: nat)
    ensures Shift(low + 128 * n, k) == Shift(low, k) + Shift(n, k + 1)
    decreases k
  {
    if k > 0 {
      ShiftSum(low, n, k - 1);
    }
  }

  /** The accumulating form: k bytes read so far gave `length`. */
  function Accumulate(b: seq<Byte>, k: nat, length: nat): Prefix
    requires k < MAX_PREFIX
    decreases MAX_PREFIX - k
  {
    if k >= |b| then Incomplete
    else if b[k] < 128 then Length(length + Shift(b[k], k), k + 1)
    else if k == MAX_PREFIX - 1 then Overlong
    else Accumulate(b, k + 1, length + Shift(b[k] - 128, k))
  }

  lemma {:induction false} AccumulateIs(b: seq<Byte>, k: nat, length: nat)
    requires k < MAX_PREFIX && k <= |b|
    ensures Accumulate(b, k, length) ==
            match ReadPrefix(b[k..], MAX_PREFIX - k) case Length(n, size) => Length(length + Shift(n, k), k + size) case other => other
    decreases MAX_PREFIX - k
  {
    if k < |b| && b[k] >= 128 && k < MAX_PREFIX - 1 {
      assert b[k..][1..] == b[k + 1..];
      AccumulateIs(b, k + 1, length + Shift(b[k] - 128, k));
      match ReadPrefix(b[k + 1..], MAX_PREFIX - k - 1)
      case Length(n, size) => ShiftSum(b[k] - 128, n, k);
      case _ =>
    }
  }

  lemma AccumulateWhole(b: seq<Byte>)
    ensures Accumulate(b, 0, 0) == ReadPrefix(b, MAX_PREFIX)
  {
    AccumulateIs(b, 0, 0);
    assert b[0..] == b;
  }

  /** The length loop: seven bits a byte, at most five bytes. */
  method DecodePrefix(buf: seq<Byte>) returns (p: Prefix)
    ensures p == ReadPrefix(buf, MAX_PREFIX)
  {
    AccumulateWhole(buf);
    p := PrefixLoop(buf, 0, 0);
  }

  /** From a byte and a partial length on. */
  method PrefixLoop(buf: seq<Byte>, first: nat, partial: nat) returns (p: Prefix)
    requires first < MAX_PREFIX && first <= |buf|
    ensures p == Accumulate(buf, first, partial)
  {
    var length: nat, offset: nat := partial, first;
    while offset < |buf|
      invariant offset < MAX_PREFIX && offset <= |buf|
      invariant Accumulate(buf, offset, length) == Accumulate(buf, first, partial)
      decreases MAX_PREFIX - offset
    {
      var b := buf[offset];
      if b < 128 { return Length(length + Shift(b, offset), offset + 1); }
      if offset == MAX_PREFIX - 1 { return Overlong; }
      length, offset := length + Shift(b - 128, offset), offset + 1;
    }
    return Incomplete;
  }

  method TryDecodeFrame(buf: seq<Byte>, max: int) returns (d: Decoded)
    ensures d == TryDecode(buf, max)
  {
    var limit := max;
    if limit <= 0 { limit := DEFAULT_MAX_PAYLOAD; }
    var p := DecodePrefix(buf);
    match p {
      case Incomplete => return NeedMore;
      case Overlong => return FrameFailed(InvalidLengthPrefix);
      case Length(length, offset) =>
        if length > limit { return FrameFailed(PayloadTooLarge); }
        if |buf| - offset < length { return NeedMore; }
        return FrameOk(buf[offset..offset + length], buf[offset + length..]);
    }
  }

  /** How many bytes a length takes. */
  method PrefixSize(x: nat) returns (size: nat)
    ensures size == |PutUleb(x)|
  {
    size := 1;
    var v: nat := x / 128;
    while v != 0
      invariant |PutUleb(x)| == size + (if v == 0 then 0 else |PutUleb(v)|)
      decreases v
    {
      size := size + 1;
      v := v / 128;
    }
  }

  /** From byte k on, `bytes` are the groups of x, lowest first, all but the last marked. */
  ghost predicate Groups(bytes: seq<Byte>, k: nat, x: nat)
    decreases x
  {
    && k < |bytes|
    && if x < 128 then bytes[k] == x && k + 1 == |bytes| else bytes[k] == x % 128 + 128 && Groups(bytes, k + 1, x / 128)
  }

  lemma {:induction false} UlebGroups(bytes: seq<Byte>, k: nat, x: nat)
    requires k <= |bytes| && bytes[k..] == PutUleb(x)
    ensures Groups(bytes, k, x)
    decreases x
  {
    assert bytes[k..][0] == bytes[k];
    if x >= 128 {
      assert bytes[k..][1..] == bytes[k + 1..];
      UlebGroups(bytes, k + 1, x / 128);
    }
  }

  /** Writes the groups of a length into out[at..]. */
  method FillPrefix(out: array<Byte>, at: nat, length: nat, ghost bytes: seq<Byte>)
    requires Groups(bytes, 0, length) && at + |bytes| <= out.Length
    modifies out
    ensures forall j :: 0 <= j < out.Length ==> out[j] == if at <= j < at + |bytes| then bytes[j - at] else old(out[j])
  {
    var x, i := length, at;
    while x >= 128
      invariant at <= i && Groups(bytes, i - at, x)
      invariant forall j :: 0 <= j < out.Length ==> out[j] == if at <= j < i then bytes[j - at] else old(out[j])
    {
      out[i] := x % 128 + 128;
      x, i := x / 128, i + 1;
    }
    out[i] := x;
  }

  /** The frame in a fresh buffer: size the prefix, fill it, copy the body behind it. */
  method FrameWithLengthPrefix(body: seq<Byte>) returns (out: array<Byte>)
    ensures fresh(out) && out[..] == Frame(body)
  {
    var x := |body| % WORD;
    var size := PrefixSize(x);
    out := new Byte[size + |body|](i => 0);
    ghost var prefix := PutUleb(x);
    UlebGroups(prefix, 0, x);
    FillPrefix(out, 0, x, prefix);
    var i := 0;
    while i < |body|
      invariant 0 <= i <= |body|
      invariant forall j :: 0 <= j < size ==> out[j] == prefix[j]
      invariant forall j :: 0 <= j < i ==> out[size + j] == body[j]
    {
      out[size + i] := body[i];
      i := i + 1;
    }
    assert out[..] == prefix + body;
  }

  /**
   The frame in place: the body already stands behind a reserved head; the prefix is written into the
   end of the head. Fails, touching nothing, when the head is too small.
   */
  method ToFrameBuffer(buf: array<Byte>, reserveHead: nat) returns (ok: bool, start: nat)
    requires reserveHead <= buf.Length
    modifies buf
    ensures ok <==> |PutUleb((buf.Length - reserveHead) % WORD)| <= reserveHead
    ensures ok ==> start <= reserveHead && buf[start..] == Frame(old(buf[reserveHead..]))
    ensures ok ==> buf[reserveHead..] == old(buf[reserveHead..])
    ensures !ok ==> buf[..] == old(buf[..])
  {
    var x := (buf.Length - reserveHead) % WORD;
    var size := PrefixSize(x);
    if size > reserveHead { return false, 0; }
    start := reserveHead - size;
    ghost var prefix := PutUleb(x);
    UlebGroups(prefix, 0, x);
    FillPrefix(buf, start, x, prefix);
    ok := true;
    assert buf[reserveHead..] == old(buf[reserveHead..]);
    assert buf[start..] == prefix + buf[reserveHead..];
  }

  /** Five bytes of reserved head are always enough. */
  lemma ReserveSuffices(length: nat)
    ensures |PutUleb(length % WORD)| <= MAX_PREFIX
  {
    var n := length % WORD;
    WordFits(n);
    PrefixRead(n, MAX_PREFIX, []);
    PrefixSizeBound(PutUleb(n) + [], MAX_PREFIX);
  }

  lemma {:induction false} PrefixSizeBound(b: seq<Byte>, left: nat)
    requires left >= 1
    ensures ReadPrefix(b, left).Length? ==> ReadPrefix(b, left).size <= left
    decreases left
  {
    if b != [] && b[0] >= 128 && left > 1 {
      PrefixSizeBound(b[1..], left - 1);
    }
  }
}
