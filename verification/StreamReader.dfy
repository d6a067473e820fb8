/**
 The session's read loop: bytes arrive in chunks of any size, are appended to a buffer, and every
 complete frame at its head is cut off, decoded and dispatched, until a frame or a packet is
 invalid.
 */
module StreamReader {
  import opened Basics
  import opened Wire
  import opened Framing

  const READ_CHUNK := 16 * 1024
  const MAX_FRAME := 4 * 1024 * 1024

  /** How a stretch of stream ends: with an incomplete frame left over, an invalid frame, or a packet that does not decode. */
  datatype Status = Waiting(buffer: seq<Byte>) | BadFrame(error: FrameError) | BadPacket(payload: seq<Byte>)

  /** Decoding a stretch of stream as a whole: the commands in it and how it ends. */
  function Drain<C>(decode: seq<Byte> -> Read<C>, b: seq<Byte>): (seq<C>, Status)
    decreases |b|
  {
    match TryDecode(b, MAX_FRAME)
    case NeedMore => ([], Waiting(b))
    case FrameFailed(error) => ([], BadFrame(error))
    case FrameOk(payload, remaining) =>
      match decode(payload)
      case Fail => ([], BadPacket(payload))
      case Got(command, _) =>
        var (commands, status) := Drain(decode, remaining);
        ([command] + commands, status)
  }

  /** Decoding on from a buffer, behind commands already dispatched. */
  function Onward<C>(decode: seq<Byte> -> Read<C>, done: seq<C>, b: seq<Byte>): (seq<C>, Status) {
    (done + Drain(decode, b).0, Drain(decode, b).1)
  }

  /** One more chunk: nothing once the stream has failed. */
  function Feed<C>(decode: seq<Byte> -> Read<C>, done: seq<C>, status: Status, chunk: seq<Byte>): (seq<C>, Status) {
    match status
    case Waiting(buffer) => Onward(decode, done, buffer + chunk)
    case _ => (done, status)
  }

  /** A run of the read loop: what was dispatched and how things stood before and after each chunk. */
  ghost predicate Fed<C>(decode: seq<Byte> -> Read<C>, states: seq<(seq<C>, Status)>, chunks: seq<seq<Byte>>) {
    && |states| == |chunks| + 1 && states[0] == ([], Waiting([]))
    && forall i :: 0 <= i < |chunks| ==> states[i + 1] == Feed(decode, states[i].0, states[i].1, chunks[i])
  }

  function Join(chunks: seq<seq<Byte>>): seq<Byte> {
    if chunks == [] then [] else Join(chunks[..|chunks| - 1]) + chunks[|chunks| - 1]
  }

  // ---- Chunking does not matter ----

  lemma OnwardStep<C>(decode: seq<Byte> -> Read<C>, done: seq<C>, b: seq<Byte>)
    ensures match TryDecode(b, MAX_FRAME)
            case NeedMore => Onward(decode, done, b) == (done, Waiting(b))
            case FrameFailed(error) => Onward(decode, done, b) == (done, BadFrame(error))
            case FrameOk(payload, remaining) =>
              (match decode(payload)
               case Fail => Onward(decode, done, b) == (done, BadPacket(payload))
               case Got(command, _) => Onward(decode, done, b) == Onward(decode, done + [command], remaining))
  {
    assert done + [] == done;
    match TryDecode(b, MAX_FRAME)
    case NeedMore =>
    case FrameFailed(error) =>
    case FrameOk(payload, remaining) =>
      match decode(payload)
      case Fail =>
      case Got(command, _) =>
        var rest := Drain(decode, remaining).0;
        assert done + ([command] + rest) == (done + [command]) + rest;
  }

  /** Bytes that come later continue where the stretch ended, or change nothing once it failed. */
  lemma {:induction false} OnwardExtends<C>(decode: seq<Byte> -> Read<C>, done: seq<C>, b: seq<Byte>, more: seq<Byte>)
    ensures var (commands, status) := Onward(decode, done, b);
            Onward(decode, done, b + more) == Feed(decode, commands, status, more)
    decreases |b|
  {
    DecodeExtends(b, more, MAX_FRAME);
    OnwardStep(decode, done, b);
    OnwardStep(decode, done, b + more);
    match TryDecode(b, MAX_FRAME)
    case NeedMore =>
    case FrameFailed(error) =>
    case FrameOk(payload, remaining) =>
      match decode(payload)
      case Fail =>
      case Got(command, _) => OnwardExtends(decode, done + [command], remaining, more);
  }

  lemma FeedExtends<C>(decode: seq<Byte> -> Read<C>, b: seq<Byte>, more: seq<Byte>)
    ensures Feed(decode, Drain(decode, b).0, Drain(decode, b).1, more) == Drain(decode, b + more)
  {
    OnwardExtends(decode, [], b, more);
    assert [] + Drain(decode, b).0 == Drain(decode, b).0;
    assert [] + Drain(decode, b + more).0 == Drain(decode, b + more).0;
  }

  /**
   However the stream is cut into reads, after each of them exactly the commands of the stream so far
   have been dispatched, and it has failed, if at all, at the same point with the same error.
   */
  lemma {:induction false} ChunkingIrrelevant<C>(decode: seq<Byte> -> Read<C>, states: seq<(seq<C>, Status)>, chunks: seq<seq<Byte>>, i: nat)
    requires Fed(decode, states, chunks) && i <= |chunks|
    ensures states[i] == Drain(decode, Join(chunks[..i]))
    decreases i
  {
    if i > 0 {
      ChunkingIrrelevant(decode, states, chunks, i - 1);
      assert chunks[..i][..i - 1] == chunks[..i - 1] && chunks[..i][i - 1] == chunks[i - 1];
      FeedExtends(decode, Join(chunks[..i - 1]), chunks[i - 1]);
    }
  }

  /** A stream of frames within the limit whose bodies decode is understood completely. */
  lemma {:induction false} FramesUnderstood<C>(decode: seq<Byte> -> Read<C>, bodies: seq<seq<Byte>>, commands: seq<C>)
    requires |bodies| == |commands|
    requires forall i :: 0 <= i < |bodies| ==> |bodies[i]| <= MAX_FRAME && decode(bodies[i]).Got? && decode(bodies[i]).value == commands[i]
    ensures Drain(decode, FrameAll(bodies)) == (commands, Waiting([]))
    decreases |bodies|
  {
    if bodies != [] {
      FrameRoundTrip(bodies[0], FrameAll(bodies[1..]), MAX_FRAME);
      FramesUnderstood(decode, bodies[1..], commands[1..]);
      assert commands == [commands[0]] + commands[1..];
    }
  }

  function FrameAll(bodies: seq<seq<Byte>>): seq<Byte> {
    if bodies == [] then [] else Frame(bodies[0]) + FrameAll(bodies[1..])
  }

  // ---- The loop ----

  /** A fresh array of the given capacity with the same first n bytes. */
  method CopyInto(src: array<Byte>, n: nat, capacity: nat) returns (dst: array<Byte>)
    requires n <= src.Length && n <= capacity
    ensures fresh(dst) && dst.Length == capacity && dst[..n] == src[..n]
  {
    dst := new Byte[capacity](i => 0);
    var i := 0;
    while i < n
      invariant 0 <= i <= n
      invariant dst[..i] == src[..i]
    {
      dst[i] := src[i];
      i := i + 1;
    }
  }

  class Session<C> {
    const decode: seq<Byte> -> Read<C>
    var buf: array<Byte>
    var used: nat
    var dispatched: seq<C>

    ghost predicate Valid()
      reads this
    {
      used <= buf.Length
    }

    constructor (decode: seq<Byte> -> Read<C>)
      ensures Valid() && fresh(buf) && this.decode == decode && used == 0 && dispatched == []
    {
      this.decode := decode;
      buf := new Byte[2 * READ_CHUNK](i => 0);
      used, dispatched := 0, [];
    }

    /** Appends a chunk, moving to a larger array when it does not fit. */
    method Append(chunk: seq<Byte>)
      requires Valid()
      modifies this, buf
      ensures Valid() && buf[..used] == old(buf[..used]) + chunk && dispatched == old(dispatched)
      ensures buf == old(buf) || fresh(buf)
    {
      var need := used + |chunk|;
      if need > buf.Length {
        buf := CopyInto(buf, used, 2 * need);
      }
      ghost var before := buf[..used];
      assert before == old(buf[..used]);
      var k := 0;
      while k < |chunk|
        invariant 0 <= k <= |chunk| && used == old(used) && need == used + |chunk| <= buf.Length && dispatched == old(dispatched)
        invariant buf == old(buf) || fresh(buf)
        invariant buf[..used] == before
        invariant forall j :: 0 <= j < k ==> buf[used + j] == chunk[j]
      {
        buf[used + k] := chunk[k];
        k := k + 1;
      }
      used := need;
      assert buf[..used] == before + chunk;
    }

    /** Moves what follows the first n bytes to the front of the same array. */
    method Compact(n: nat)
      requires Valid() && n <= used
      modifies this, buf
      ensures Valid() && buf == old(buf) && buf[..used] == old(buf[n..used]) && dispatched == old(dispatched)
    {
      var remaining := used - n;
      var i := 0;
      while i < remaining
        invariant 0 <= i <= remaining && used == old(used) && buf == old(buf) && dispatched == old(dispatched)
        invariant forall j :: 0 <= j < i ==> buf[j] == old(buf[n + j])
        invariant forall j :: i <= j < used ==> buf[j] == old(buf[j])
      {
        buf[i] := buf[n + i];
        i := i + 1;
      }
      used := remaining;
    }

    /** Cuts off and dispatches every complete frame; any status but waiting closes the connection. */
    method Process() returns (status: Status)
      requires Valid()
      modifies this, buf
      ensures Valid() && buf == old(buf)
      ensures (dispatched, status) == Onward(decode, old(dispatched), old(buf[..used]))
      ensures status.Waiting? ==> buf[..used] == status.buffer
    {
      ghost var goal := Onward(decode, dispatched, buf[..used]);
      while true
        invariant Valid() && buf == old(buf)
        invariant Onward(decode, dispatched, buf[..used]) == goal
        decreases used
      {
        OnwardStep(decode, dispatched, buf[..used]);
        var d := TryDecodeFrame(buf[..used], MAX_FRAME);
        if d.NeedMore? { return Waiting(buf[..used]); }
        if d.FrameFailed? { return BadFrame(d.error); }
        var command := decode(d.payload);
        Compact(used - |d.remaining|);
        if command.Fail? { return BadPacket(d.payload); }
        dispatched := dispatched + [command.value];
      }
    }

    /** Gives a large, nearly empty buffer back. */
    method Shrink()
      requires Valid()
      modifies this, buf
      ensures Valid() && buf[..used] == old(buf[..used]) && dispatched == old(dispatched)
      ensures buf == old(buf) || fresh(buf)
    {
      if buf.Length > 2 * READ_CHUNK && used < READ_CHUNK / 2 {
        buf := CopyInto(buf, used, 2 * READ_CHUNK);
      }
    }

    /** One round of the read loop. */
    method OnRead(chunk: seq<Byte>) returns (status: Status)
      requires Valid()
      modifies this, buf
      ensures Valid() && (buf == old(buf) || fresh(buf))
      ensures (dispatched, status) == Feed(decode, old(dispatched), Waiting(old(buf[..used])), chunk)
      ensures status.Waiting? ==> buf[..used] == status.buffer
    {
      Append(chunk);
      status := Process();
      if status.Waiting? { Shrink(); }
    }
  }
}
