/**
 What every operation, failure, crash and restart of the outbox keeps.

 `Trace` holds auxiliary variables: the history of everything ever appended, the index at
 which the log file starts, and the envelope of an append that failed part-way ("limbo"),
 whose bytes may or may not survive the next crash.
 */
module OutboxSafety {
  import opened Basics
  import opened RecordLog
  import opened Envelopes
  import opened Outbox

  datatype Trace = Trace(hist: seq<Envelope>, prios: seq<Priority>, from: nat, limbo: Option<(Envelope, Priority)>)

  /** Bytes taken by normal-priority records. */
  ghost function NormalBytes(c: Coding<Envelope>, es: seq<Envelope>, ps: seq<Priority>): nat
    requires |es| == |ps|
  {
    if es == [] then 0
    else (if ps[0].Normal? then |Record(c, es[0])| else 0) + NormalBytes(c, es[1..], ps[1..])
  }

  lemma {:induction false} NormalBytesAppend(c: Coding<Envelope>, es: seq<Envelope>, ps: seq<Priority>, e: Envelope, p: Priority)
    requires |es| == |ps|
    ensures NormalBytes(c, es + [e], ps + [p]) == NormalBytes(c, es, ps) + if p.Normal? then |Record(c, e)| else 0
  {
    if es == [] {
      assert es + [e] == [e] && ps + [p] == [p];
      assert [e][1..] == [] && [p][1..] == [];
    } else {
      assert (es + [e])[1..] == es[1..] + [e] && (ps + [p])[1..] == ps[1..] + [p];
      NormalBytesAppend(c, es[1..], ps[1..], e, p);
    }
  }

  /** Dropping records from the front never adds normal bytes, and the whole log bounds them. */
  lemma {:induction false} NormalBytesDrop(c: Coding<Envelope>, es: seq<Envelope>, ps: seq<Priority>, k: nat)
    requires |es| == |ps| && k <= |es|
    ensures NormalBytes(c, es[k..], ps[k..]) <= NormalBytes(c, es, ps) <= |LogBytes(c, es)|
  {
    if es == [] {
      assert es[k..] == es && ps[k..] == ps;
    } else if k == 0 {
      assert es[0..] == es && ps[0..] == ps;
      NormalBytesDrop(c, es[1..], ps[1..], 0);
    } else {
      assert es[k..] == es[1..][k - 1..] && ps[k..] == ps[1..][k - 1..];
      NormalBytesDrop(c, es[1..], ps[1..], k - 1);
    }
  }

  /** The part of the log file that has been made durable. */
  ghost function Synced(c: Coding<Envelope>, t: Trace): seq<Byte>
    requires t.from <= |t.hist|
  {
    LogBytes(c, t.hist[t.from..])
  }

  ghost predicate LimboOk(c: Coding<Envelope>, max: nat, t: Trace)
    requires t.from <= |t.hist|
  {
    t.limbo.Some? ==>
      var (e, p) := t.limbo.value;
      && e.sequence == |t.hist| + 1 && e.id != "" && Fits(c, e)
      && |Synced(c, t)| + |Record(c, e)| <= Limit(max, p)
  }

  /** The files agree with the history. */
  ghost predicate DiskInv(c: Coding<Envelope>, max: nat, t: Trace, d: Disk) {
    && Lawful(c) && History(c, t.hist) && |t.prios| == |t.hist|
    && t.from <= d.checkpoint <= |t.hist|
    && LimboOk(c, max, t)
    && Prefix(Synced(c, t), d.log)
    && Prefix(d.log[|Synced(c, t)|..], if t.limbo.Some? then Record(c, t.limbo.value.0) else [])
    && |Synced(c, t)| <= max
    && NormalBytes(c, t.hist[t.from..], t.prios[t.from..]) <= max - max / 4
  }

  /** The running store agrees with the files and the history. */
  ghost predicate Inv(c: Coding<Envelope>, max: nat, t: Trace, m: Mem, d: Disk) {
    match m
    case Mem(events, acked, latest, bytes, _, failed, _) =>
      && DiskInv(c, max, t, d)
      && t.from <= acked <= d.checkpoint
      && latest == |t.hist|
      && events == t.hist[acked..]
      && |Synced(c, t)| <= bytes <= max
      && (t.limbo.Some? ==> failed)
  }

  /** What the invariant says to a caller: contents, numbering, space, and the reserve for critical events. */
  lemma Meaning(c: Coding<Envelope>, max: nat, t: Trace, m: Mem, d: Disk)
    requires Inv(c, max, t, m, d)
    ensures |m.events| == m.latest - m.acked
    ensures forall i :: 0 <= i < |m.events| ==> m.events[i].sequence == m.acked + 1 + i
    ensures !m.failed ==> d.log == LogBytes(c, t.hist[t.from..]) && |d.log| <= m.bytes <= max
    ensures NormalBytes(c, t.hist[t.from..], t.prios[t.from..]) <= max - max / 4
  {
    if !m.failed {
      assert d.log == d.log[..|Synced(c, t)|] + d.log[|Synced(c, t)|..];
    }
  }

  // ---- Appending ----

  ghost function AppendTrace(t: Trace, m: Mem, id: string, kind: string, now: int, payload: seq<Byte>, p: Priority,
                             r: AppendResult): Trace
  {
    match r
    case Appended(e) => Grown(t, e, p)
    case AppendFailed => t.(limbo := Some((Envelope(id, m.latest + 1, kind, now, payload), p)))
    case _ => t
  }

  ghost function Grown(t: Trace, e: Envelope, p: Priority): Trace {
    Trace(t.hist + [e], t.prios + [p], t.from, None)
  }

  /** One more whole record at the end of the log: the history grows by it and the space limits still hold. */
  lemma Grow(c: Coding<Envelope>, max: nat, t: Trace, d: Disk, e: Envelope, p: Priority)
    requires DiskInv(c, max, t, d)
    requires e.sequence == |t.hist| + 1 && e.id != "" && Fits(c, e)
    requires |Synced(c, t)| + |Record(c, e)| <= Limit(max, p)
    ensures Synced(c, Grown(t, e, p)) == Synced(c, t) + Record(c, e)
    ensures DiskInv(c, max, Grown(t, e, p), d.(log := Synced(c, t) + Record(c, e)))
  {
    var es, ps := t.hist[t.from..], t.prios[t.from..];
    assert Grown(t, e, p).hist[t.from..] == es + [e] && Grown(t, e, p).prios[t.from..] == ps + [p];
    assert LogBytes(c, es + [e]) == LogBytes(c, es) + Record(c, e) by {
      LogBytesOne(c, e);
      LogBytesAppend(c, es, [e]);
    }
    assert NormalBytes(c, es + [e], ps + [p]) <= max - max / 4 by {
      NormalBytesAppend(c, es, ps, e, p);
      NormalBytesDrop(c, es, ps, 0);
    }
  }

  lemma AppendFailedKeeps(c: Coding<Envelope>, max: nat, t: Trace, m: Mem, d: Disk, e: Envelope, p: Priority, n: nat)
    requires Inv(c, max, t, m, d) && !m.failed
    requires e.sequence == |t.hist| + 1 && e.id != "" && Fits(c, e)
    requires m.bytes + |Record(c, e)| <= Limit(max, p) && n <= |Record(c, e)|
    ensures Inv(c, max, t.(limbo := Some((e, p))), m.(failed := true), d.(log := d.log + Record(c, e)[..n]))
  {
    Meaning(c, max, t, m, d);
    assert (d.log + Record(c, e)[..n])[|d.log|..] == Record(c, e)[..n];
  }

  lemma AppendedKeeps(c: Coding<Envelope>, max: nat, t: Trace, m: Mem, d: Disk, e: Envelope, p: Priority)
    requires Inv(c, max, t, m, d) && !m.failed
    requires e.sequence == |t.hist| + 1 && e.id != "" && Fits(c, e)
    requires m.bytes + |Record(c, e)| <= Limit(max, p)
    ensures Inv(c, max, Grown(t, e, p),
                m.(events := m.events + [e], latest := e.sequence, bytes := m.bytes + |Record(c, e)|),
                d.(log := d.log + Record(c, e)))
  {
    Meaning(c, max, t, m, d);
    Grow(c, max, t, d, e, p);
  }

  lemma AppendKeeps(c: Coding<Envelope>, max: nat, t: Trace, m: Mem, d: Disk,
                    id: string, kind: string, now: int, payload: seq<Byte>, p: Priority, fault: WriteFault)
    requires Inv(c, max, t, m, d)
    requires id != ""
    ensures var (m', d', r) := Append(c, max, m, d, id, kind, now, payload, p, fault);
            Inv(c, max, AppendTrace(t, m, id, kind, now, payload, p, r), m', d')
  {
    var (m', d', r) := Append(c, max, m, d, id, kind, now, payload, p, fault);
    var e := Envelope(id, m.latest + 1, kind, now, payload);
    var record := Record(c, e);
    if r.Appended? {
      AppendedKeeps(c, max, t, m, d, e, p);
    } else if r.AppendFailed? {
      assert record[..|record|] == record;
      AppendFailedKeeps(c, max, t, m, d, e, p, if fault.SyncFailed? then |record| else Min(fault.written, |record|));
    }
  }

  // ---- Acknowledging ----

  ghost function AckTrace(t: Trace, m: Mem, m': Mem, sequence: nat, fault: AckFault): Trace {
    if m'.acked > m.acked && !(fault.CompactFailed? && !fault.logReplaced)
    then t.(from := sequence, limbo := None) else t
  }

  /** Within the pending range, the index the loop finds is the distance from the acknowledged sequence. */
  lemma IndexOfPending(h: seq<Envelope>, acked: nat, sequence: nat)
    requires forall i :: 0 <= i < |h| ==> h[i].sequence == i + 1
    requires acked < sequence <= |h|
    ensures IndexOf(h[acked..], sequence) == sequence - acked - 1
  {
    var i := IndexOf(h[acked..], sequence);
    assert h[acked..][sequence - acked - 1].sequence == sequence;
  }

  /** Moving the start of the log forward keeps the files in order. */
  lemma CompactKeeps(c: Coding<Envelope>, max: nat, t: Trace, d: Disk, sequence: nat)
    requires DiskInv(c, max, t, d) && t.from <= sequence <= |t.hist|
    ensures |LogBytes(c, t.hist[sequence..])| <= |Synced(c, t)|
    ensures DiskInv(c, max, t.(from := sequence, limbo := None), Disk(LogBytes(c, t.hist[sequence..]), sequence))
  {
    var es, ps := t.hist[t.from..], t.prios[t.from..];
    var k := sequence - t.from;
    assert es[k..] == t.hist[sequence..] && ps[k..] == t.prios[sequence..];
    assert es == es[..k] + es[k..];
    LogBytesAppend(c, es[..k], es[k..]);
    NormalBytesDrop(c, es, ps, k);
  }

  lemma AcknowledgeKeeps(c: Coding<Envelope>, max: nat, t: Trace, m: Mem, d: Disk, sequence: nat, fault: AckFault,
                         m': Mem, d': Disk, r: AckResult)
    requires Inv(c, max, t, m, d) && m.acked < sequence <= m.latest
    requires (m', d', r) == Acknowledge(c, m, d, sequence, t.hist[sequence..], fault)
    ensures Inv(c, max, AckTrace(t, m, m', sequence, fault), m', d')
  {
    CompactKeeps(c, max, t, d, sequence);
  }

  /** Acknowledging a pending sequence leaves exactly the history behind it. */
  lemma AckPending(c: Coding<Envelope>, max: nat, t: Trace, m: Mem, d: Disk, sequence: nat, fault: AckFault)
    requires Inv(c, max, t, m, d) && m.acked < sequence <= m.latest
    ensures Ack(c, m, d, sequence, fault) == Acknowledge(c, m, d, sequence, t.hist[sequence..], fault)
  {
    IndexOfPending(t.hist, m.acked, sequence);
    assert m.events[sequence - m.acked..] == t.hist[sequence..];
  }

  lemma AckKeeps(c: Coding<Envelope>, max: nat, t: Trace, m: Mem, d: Disk, sequence: nat, fault: AckFault)
    requires Inv(c, max, t, m, d)
    ensures var (m', d', r) := Ack(c, m, d, sequence, fault);
            Inv(c, max, AckTrace(t, m, m', sequence, fault), m', d')
    ensures m.acked < sequence <= m.latest ==>
              Ack(c, m, d, sequence, fault) == Acknowledge(c, m, d, sequence, t.hist[sequence..], fault)
  {
    if m.acked < sequence <= m.latest {
      AckPending(c, max, t, m, d, sequence, fault);
      var (m', d', r) := Ack(c, m, d, sequence, fault);
      AcknowledgeKeeps(c, max, t, m, d, sequence, fault, m', d', r);
    }
  }

  // ---- Crash and restart ----

  /** A crash keeps the synced bytes and any prefix of the rest; opening then runs recovery. */
  function Restart(c: Coding<Envelope>, d: Disk, cut: nat): (Mem, Disk)
    requires cut <= |d.log|
  {
    Open(c, d.(log := d.log[..cut]))
  }

  ghost function RestartTrace(c: Coding<Envelope>, t: Trace, cut: nat): Trace
    requires t.from <= |t.hist|
  {
    if t.limbo.Some? && cut == |Synced(c, t)| + |Record(c, t.limbo.value.0)|
    then Grown(t, t.limbo.value.0, t.limbo.value.1)
    else t.(limbo := None)
  }

  /** A stretch of the history that starts no later than acked + 1 passes recovery's check. */
  lemma {:induction false} HistoryAdmitted(es: seq<Envelope>, st: Progress)
    requires forall i :: 0 <= i < |es| ==> es[i].id != "" && es[i].sequence == es[0].sequence + i
    requires es != [] ==> es[0].sequence >= 1
    requires es != [] ==> match st.previous case None => es[0].sequence <= st.acked + 1 case Some(p) => es[0].sequence == p + 1
    ensures Admits(Admit, st, es)
    decreases |es|
  {
    if es != [] {
      HistoryAdmitted(es[1..], Progress(st.acked, Some(es[0].sequence)));
    }
  }

  lemma {:induction false} LatestContiguous(es: seq<Envelope>, first: nat, acked: nat)
    requires forall i :: 0 <= i < |es| ==> es[i].sequence == first + i
    requires 1 <= first <= acked + 1
    ensures Latest(es, acked) == Max(first + |es| - 1, acked)
    decreases |es|
  {
    if es != [] {
      LatestContiguous(es[..|es| - 1], first, acked);
    }
  }

  lemma ScanHistory(c: Coding<Envelope>, h: seq<Envelope>, from: nat, checkpoint: nat, tail: seq<Byte>)
    requires Lawful(c) && History(c, h) && from <= checkpoint <= |h| && !Parse(c, tail).Body?
    ensures Scan(c, Admit, Progress(checkpoint, None), LogBytes(c, h[from..]) + tail) == h[from..]
    ensures Kept(c, Admit, Progress(checkpoint, None), LogBytes(c, h[from..]) + tail) == |LogBytes(c, h[from..])|
  {
    HistoryAdmitted(h[from..], Progress(checkpoint, None));
    RecoveryExact(c, Admit, Progress(checkpoint, None), h[from..], tail);
  }

  lemma OpenWholeRecords(c: Coding<Envelope>, h: seq<Envelope>, from: nat, d: Disk, tail: seq<Byte>)
    requires Lawful(c) && History(c, h) && from <= d.checkpoint <= |h|
    requires d.log == LogBytes(c, h[from..]) + tail && !Parse(c, tail).Body?
    ensures Open(c, d) == (Mem(h[d.checkpoint..], d.checkpoint, |h|, |LogBytes(c, h[from..])|, 0, false, false),
                           Disk(LogBytes(c, h[from..]), d.checkpoint))
  {
    var es, k := h[from..], |LogBytes(c, h[from..])|;
    assert Open(c, d) == Opened(d, es, k) by {
      ScanHistory(c, h, from, d.checkpoint, tail);
    }
    assert d.log[..k] == LogBytes(c, es);
    assert Filter(Past(d.checkpoint), es) == h[d.checkpoint..] && Latest(es, d.checkpoint) == |h| by {
      PastHistory(h, from, d.checkpoint, |h|);
      LatestContiguous(es, from + 1, d.checkpoint);
      assert h[from..|h|] == es && h[d.checkpoint..|h|] == h[d.checkpoint..];
    }
  }

  /** Recovery brings back exactly the history after the checkpoint, plus the limbo record when all of it survived. */
  lemma RestartKeeps(c: Coding<Envelope>, max: nat, t: Trace, d: Disk, cut: nat)
    requires DiskInv(c, max, t, d)
    requires |Synced(c, t)| <= cut <= |d.log|
    ensures var (m', d') := Restart(c, d, cut);
            var t' := RestartTrace(c, t, cut);
            && Inv(c, max, t', m', d')
            && m'.acked == d.checkpoint && m'.events == t'.hist[d.checkpoint..] && !m'.failed
  {
    var d1 := d.(log := d.log[..cut]);
    var synced := Synced(c, t);
    var tail := d1.log[|synced|..];
    assert d1.log == synced + tail;
    assert tail == d.log[|synced|..][..cut - |synced|];
    if t.limbo.Some? && cut == |synced| + |Record(c, t.limbo.value.0)| {
      var (e, p) := t.limbo.value;
      Grow(c, max, t, d, e, p);
      assert tail == Record(c, e);
      OpenWholeRecords(c, t.hist + [e], t.from, d1, []);
    } else {
      if t.limbo.Some? {
        ParsePartial(c, t.limbo.value.0, tail);
      }
      OpenWholeRecords(c, t.hist, t.from, d1, tail);
    }
  }

  // ---- A crash during an acknowledgement ----

  ghost predicate Holds(m: Mem, acked: nat, h: seq<Envelope>) {
    acked <= |h| && m.acked == acked && m.events == h[acked..]
  }

  /**
   A crash at any point of an acknowledgement, followed by opening: the checkpoint that was on disk or
   the new one, and the history behind it; the new one for certain once the checkpoint was replaced.
   The history is what it was, except that it gains an event of an earlier failed append if all of it
   survived.
   */
  lemma AckCrash(c: Coding<Envelope>, max: nat, t: Trace, m: Mem, d: Disk, sequence: nat, fault: AckFault, t1: Trace, d1: Disk, cut: nat)
    requires Inv(c, max, t, m, d) && m.acked < sequence <= m.latest
    requires d1 == Ack(c, m, d, sequence, fault).1 && t1 == AckTrace(t, m, Ack(c, m, d, sequence, fault).0, sequence, fault)
    requires t1.from <= |t1.hist| && |Synced(c, t1)| <= cut <= |d1.log|
    ensures var h := RestartTrace(c, t1, cut).hist;
            && Holds(Restart(c, d1, cut).0, if fault == CheckpointFailed(false) then d.checkpoint else sequence, h)
            && Prefix(t.hist, h) && (t.limbo.None? ==> h == t.hist)
  {
    AckKeeps(c, max, t, m, d, sequence, fault);
    AckTraced(c, t, m, d, sequence, fault, t1, d1);
    RestartKeeps(c, max, t1, d1, cut);
  }

  lemma AckTraced(c: Coding<Envelope>, t: Trace, m: Mem, d: Disk, sequence: nat, fault: AckFault, t1: Trace, d1: Disk)
    requires m.acked < sequence <= |t.hist| && t1 == AckTrace(t, m, Ack(c, m, d, sequence, fault).0, sequence, fault)
    requires Ack(c, m, d, sequence, fault) == Acknowledge(c, m, d, sequence, t.hist[sequence..], fault)
    requires d1 == Ack(c, m, d, sequence, fault).1
    ensures t1.hist == t.hist && (t1.limbo == t.limbo || t1.limbo.None?)
    ensures d1.checkpoint == if fault == CheckpointFailed(false) then d.checkpoint else sequence
  {
  }

  /**
   It gives the running store's pair (acked, pending) from before the acknowledgement or the pair after
   it, if and only if the checkpoint was replaced by then, or stood at one of the two before.
   */
  lemma AckCrashAtomic(c: Coding<Envelope>, max: nat, t: Trace, m: Mem, d: Disk, sequence: nat, fault: AckFault, t1: Trace, d1: Disk, cut: nat)
    requires Inv(c, max, t, m, d) && m.acked < sequence <= m.latest
    requires d1 == Ack(c, m, d, sequence, fault).1 && t1 == AckTrace(t, m, Ack(c, m, d, sequence, fault).0, sequence, fault)
    requires t1.from <= |t1.hist| && |Synced(c, t1)| <= cut <= |d1.log|
    ensures var m', h := Restart(c, d1, cut).0, RestartTrace(c, t1, cut).hist;
            Holds(m', m.acked, h) || Holds(m', sequence, h)
            <==> fault != CheckpointFailed(false) || d.checkpoint == m.acked || d.checkpoint == sequence
    ensures Holds(m, m.acked, t.hist)
  {
    AckCrash(c, max, t, m, d, sequence, fault, t1, d1, cut);
  }

  /**
   The third pair: the checkpoint for s2 was replaced although writing it reported a failure; the next
   acknowledgement, of s1, crashes before its own checkpoint; opening finds s2.
   */
  lemma ThirdPair(c: Coding<Envelope>, max: nat, t: Trace, m: Mem, d: Disk, s1: nat, s2: nat)
    requires Inv(c, max, t, m, d) && m.acked < s1 < s2 <= m.latest
    ensures var (m1, d1, _) := Ack(c, m, d, s2, CheckpointFailed(true));
            var (m2, d2, _) := Ack(c, m1, d1, s1, CheckpointFailed(false));
            m1.acked == m2.acked == m.acked && Restart(c, d2, |d2.log|).0.acked == s2
  {
    AckKeeps(c, max, t, m, d, s2, CheckpointFailed(true));
    var (m1, d1, _) := Ack(c, m, d, s2, CheckpointFailed(true));
    AckKeeps(c, max, t, m1, d1, s1, CheckpointFailed(false));
    AckCrash(c, max, t, m1, d1, s1, CheckpointFailed(false), t, d1, |d1.log|);
  }

  // ---- The checkpoint file ----

  /** An acknowledgement sets the checkpoint file back exactly when the file was ahead of the store and of the sequence, and is written. */
  lemma CheckpointSetBack(c: Coding<Envelope>, max: nat, t: Trace, m: Mem, d: Disk, sequence: nat, fault: AckFault)
    requires Inv(c, max, t, m, d)
    ensures Ack(c, m, d, sequence, fault).1.checkpoint < d.checkpoint
            <==> m.acked < sequence < d.checkpoint && fault != CheckpointFailed(false)
  {
    AckKeeps(c, max, t, m, d, sequence, fault);
  }

  /** It happens: a later sequence reaches the file although its acknowledgement failed, then an earlier one is acknowledged. */
  lemma CheckpointGoesBack(c: Coding<Envelope>, max: nat, t: Trace, m: Mem, d: Disk, s1: nat, s2: nat)
    requires Inv(c, max, t, m, d) && m.acked < s1 < s2 <= m.latest
    ensures var (m1, d1, _) := Ack(c, m, d, s2, CheckpointFailed(true));
            var (m2, d2, r) := Ack(c, m1, d1, s1, NoAckFault);
            d1.checkpoint == s2 && r.AckOk? && d2.checkpoint == m2.acked == s1
  {
    AckKeeps(c, max, t, m, d, s2, CheckpointFailed(true));
    AckKeeps(c, max, t, Ack(c, m, d, s2, CheckpointFailed(true)).0, Ack(c, m, d, s2, CheckpointFailed(true)).1, s1, NoAckFault);
  }

  // ---- The reserve for critical events ----

  /** Bytes taken by critical records. */
  ghost function CriticalBytes(c: Coding<Envelope>, t: Trace): int
    requires t.from <= |t.hist| == |t.prios|
  {
    |Synced(c, t)| - NormalBytes(c, t.hist[t.from..], t.prios[t.from..])
  }

  /** The promise for a critical record of a given size: refused only when critical records alone would outgrow their quarter. */
  predicate Reserved(max: nat, bytes: nat, critical: int, size: nat) {
    bytes + size > max ==> critical + size > max / 4
  }

  /** The promise holds for every size exactly when what is counted beyond the critical records is within three quarters. */
  lemma ReserveExactly(c: Coding<Envelope>, max: nat, t: Trace, m: Mem, d: Disk)
    requires Inv(c, max, t, m, d)
    ensures (forall size: nat :: Reserved(max, m.bytes, CriticalBytes(c, t), size)) <==> m.bytes - CriticalBytes(c, t) <= max - max / 4
  {
    var critical := CriticalBytes(c, t);
    if forall size: nat :: Reserved(max, m.bytes, critical, size) {
      assert Reserved(max, m.bytes, critical, max - m.bytes + 1);
    }
  }

  /** A counter that equals the size of the log keeps the promise: a critical event is refused for space only then. */
  lemma CriticalReserve(c: Coding<Envelope>, max: nat, t: Trace, m: Mem, d: Disk,
                        id: string, kind: string, now: int, payload: seq<Byte>, fault: WriteFault)
    requires Inv(c, max, t, m, d) && Counted(m, d)
    requires Append(c, max, m, d, id, kind, now, payload, Critical, fault).2 == Full
    ensures CriticalBytes(c, t) + |Record(c, Envelope(id, m.latest + 1, kind, now, payload))| > max / 4
  {
    Meaning(c, max, t, m, d);
    ReserveExactly(c, max, t, m, d);
    assert Reserved(max, m.bytes, CriticalBytes(c, t), |Record(c, Envelope(id, m.latest + 1, kind, now, payload))|);
  }

  /** Compaction replaces the file and then reports a failure: the log is empty, and the counter stays as it was. */
  lemma StaleCounter(c: Coding<Envelope>, max: nat, t: Trace, m: Mem, d: Disk)
    requires Inv(c, max, t, m, d) && m.acked < m.latest
    ensures Ack(c, m, d, m.latest, CompactFailed(true)) == (m.(acked := m.latest, events := []), Disk([], m.latest), AckFailed)
  {
    AckKeeps(c, max, t, m, d, m.latest, CompactFailed(true));
    assert t.hist[m.latest..] == [];
  }

  /** The promise fails then: a critical event that fits the reserve is refused as too much, although the log is empty. */
  lemma StaleCounterRefuses(c: Coding<Envelope>, max: nat, t: Trace, m: Mem, d: Disk,
                            id: string, kind: string, now: int, payload: seq<Byte>, size: nat)
    requires Inv(c, max, t, m, d) && !m.failed && !m.closed && m.acked < m.latest
    requires Fits(c, Envelope(id, m.latest + 1, kind, now, payload))
    requires size == |Record(c, Envelope(id, m.latest + 1, kind, now, payload))| && size <= max / 4 && m.bytes + size > max
    ensures var (m1, d1, _) := Ack(c, m, d, m.latest, CompactFailed(true));
            d1.log == [] && Append(c, max, m1, d1, id, kind, now, payload, Critical, NoFault).2 == Full
  {
    StaleCounter(c, max, t, m, d);
  }

  // ---- Every run of one store ----

  /** While the store accepts events, the counted bytes are the size of the log. */
  predicate Counted(m: Mem, d: Disk) {
    !m.failed ==> m.bytes == |d.log|
  }

  datatype Step =
    | DoAppend(id: string, kind: string, now: int, payload: seq<Byte>, priority: Priority, writeFault: WriteFault)
    | DoAck(sequence: nat, ackFault: AckFault)
    | DoRestart(cut: nat)

  datatype Server = Server(mem: Mem, disk: Disk, trace: Trace)

  ghost predicate Enabled(c: Coding<Envelope>, v: Server, step: Step) {
    match step
    case DoAppend(id, _, _, _, _, _) => id != ""
    case DoAck(_, _) => true
    case DoRestart(cut) => v.trace.from <= |v.trace.hist| && |Synced(c, v.trace)| <= cut <= |v.disk.log|
  }

  ghost function Do(c: Coding<Envelope>, max: nat, v: Server, step: Step): Server
    requires Enabled(c, v, step)
  {
    match step
    case DoAppend(id, kind, now, payload, p, fault) =>
      var (m, d, r) := Append(c, max, v.mem, v.disk, id, kind, now, payload, p, fault);
      Server(m, d, AppendTrace(v.trace, v.mem, id, kind, now, payload, p, r))
    case DoAck(sequence, fault) =>
      var (m, d, _) := Ack(c, v.mem, v.disk, sequence, fault);
      Server(m, d, AckTrace(v.trace, v.mem, m, sequence, fault))
    case DoRestart(cut) =>
      var (m, d) := Restart(c, v.disk, cut);
      Server(m, d, RestartTrace(c, v.trace, cut))
  }

  ghost predicate Next(c: Coding<Envelope>, max: nat, v: Server, step: Step, v': Server) {
    match step
    case _ => Enabled(c, v, step) && v' == Do(c, max, v, step)
  }

  const EMPTY := Server(Mem([], 0, 0, 0, 0, false, false), Disk([], 0), Trace([], [], 0, None))

  /** A run from an empty directory, with every failure of the file system, crash and restart. */
  ghost predicate Run(c: Coding<Envelope>, max: nat, states: seq<Server>, steps: seq<Step>) {
    && Lawful(c) && |states| == |steps| + 1 && states[0] == EMPTY
    && forall i :: 0 <= i < |steps| ==> Next(c, max, states[i], steps[i], states[i + 1])
  }

  lemma StepKeeps(c: Coding<Envelope>, max: nat, v: Server, step: Step)
    requires Inv(c, max, v.trace, v.mem, v.disk) && Enabled(c, v, step)
    ensures var v' := Do(c, max, v, step); Inv(c, max, v'.trace, v'.mem, v'.disk)
  {
    match step
    case DoAppend(id, kind, now, payload, p, fault) => AppendKeeps(c, max, v.trace, v.mem, v.disk, id, kind, now, payload, p, fault);
    case DoAck(sequence, fault) => AckKeeps(c, max, v.trace, v.mem, v.disk, sequence, fault);
    case DoRestart(cut) => RestartKeeps(c, max, v.trace, v.disk, cut);
  }

  lemma {:induction false} RunInv(c: Coding<Envelope>, max: nat, states: seq<Server>, steps: seq<Step>, i: nat)
    requires Run(c, max, states, steps) && i < |states|
    ensures Inv(c, max, states[i].trace, states[i].mem, states[i].disk)
    decreases i
  {
    if i > 0 {
      RunInv(c, max, states, steps, i - 1);
      assert Next(c, max, states[i - 1], steps[i - 1], states[i]);
      StepKeeps(c, max, states[i - 1], steps[i - 1]);
    }
  }

  /** In every state of every run: contents and numbering of what is pending, the space, and the normal events' share. */
  lemma RunMeaning(c: Coding<Envelope>, max: nat, states: seq<Server>, steps: seq<Step>, i: nat)
    requires Run(c, max, states, steps) && i < |states|
    ensures var (m, d, t) := (states[i].mem, states[i].disk, states[i].trace);
            && |m.events| == m.latest - m.acked
            && (forall k :: 0 <= k < |m.events| ==> m.events[k].sequence == m.acked + 1 + k)
            && t.from <= m.acked <= |t.hist| == |t.prios| && m.events == t.hist[m.acked..]
            && (!m.failed ==> d.log == LogBytes(c, t.hist[t.from..]) && |d.log| <= m.bytes <= max)
            && NormalBytes(c, t.hist[t.from..], t.prios[t.from..]) <= max - max / 4
  {
    RunInv(c, max, states, steps, i);
    Meaning(c, max, states[i].trace, states[i].mem, states[i].disk);
  }

  /** The counter and the file agree after every step but a compaction that failed after replacing the file. */
  lemma StepCounts(c: Coding<Envelope>, max: nat, v: Server, step: Step)
    requires Inv(c, max, v.trace, v.mem, v.disk) && Counted(v.mem, v.disk) && Enabled(c, v, step)
    requires step.DoAck? ==> step.ackFault != CompactFailed(true)
    ensures Counted(Do(c, max, v, step).mem, Do(c, max, v, step).disk)
  {
  }

  /** In every run without such a compaction they agree in every state. */
  lemma {:induction false} RunCounts(c: Coding<Envelope>, max: nat, states: seq<Server>, steps: seq<Step>, i: nat)
    requires Run(c, max, states, steps) && i < |states|
    requires forall k :: 0 <= k < i && steps[k].DoAck? ==> steps[k].ackFault != CompactFailed(true)
    ensures Counted(states[i].mem, states[i].disk)
    decreases i
  {
    if i > 0 {
      RunCounts(c, max, states, steps, i - 1);
      RunInv(c, max, states, steps, i - 1);
      assert Next(c, max, states[i - 1], steps[i - 1], states[i]);
      StepCounts(c, max, states[i - 1], steps[i - 1]);
    }
  }

  /** So in every such run a critical event is refused for space only when critical records would outgrow their quarter. */
  lemma RunReserve(c: Coding<Envelope>, max: nat, states: seq<Server>, steps: seq<Step>, i: nat,
                   id: string, kind: string, now: int, payload: seq<Byte>, fault: WriteFault)
    requires Run(c, max, states, steps) && i < |states|
    requires forall k :: 0 <= k < i && steps[k].DoAck? ==> steps[k].ackFault != CompactFailed(true)
    requires Append(c, max, states[i].mem, states[i].disk, id, kind, now, payload, Critical, fault).2 == Full
    ensures var t := states[i].trace;
            && t.from <= |t.hist| == |t.prios|
            && CriticalBytes(c, t) + |Record(c, Envelope(id, states[i].mem.latest + 1, kind, now, payload))| > max / 4
  {
    RunInv(c, max, states, steps, i);
    RunCounts(c, max, states, steps, i);
    CriticalReserve(c, max, states[i].trace, states[i].mem, states[i].disk, id, kind, now, payload, fault);
  }

  /** In every run without an acknowledgement whose checkpoint failed after replacing the file, the file and the store agree. */
  lemma {:induction false} RunInStep(c: Coding<Envelope>, max: nat, states: seq<Server>, steps: seq<Step>, i: nat)
    requires Run(c, max, states, steps) && i < |states|
    requires forall k :: 0 <= k < i && steps[k].DoAck? ==> steps[k].ackFault != CheckpointFailed(true)
    ensures states[i].disk.checkpoint == states[i].mem.acked
    decreases i
  {
    if i > 0 {
      RunInStep(c, max, states, steps, i - 1);
      RunInv(c, max, states, steps, i - 1);
      assert Next(c, max, states[i - 1], steps[i - 1], states[i]);
      StepInStep(c, max, states[i - 1], steps[i - 1]);
    }
  }

  /** They agree after every other step. */
  lemma StepInStep(c: Coding<Envelope>, max: nat, v: Server, step: Step)
    requires Inv(c, max, v.trace, v.mem, v.disk) && v.disk.checkpoint == v.mem.acked && Enabled(c, v, step)
    requires step.DoAck? ==> step.ackFault != CheckpointFailed(true)
    ensures Do(c, max, v, step).disk.checkpoint == Do(c, max, v, step).mem.acked
  {
  }

  /** So in every run without such an acknowledgement, a crash inside one is atomic: the pair before or the pair after. */
  lemma RunAckAtomic(c: Coding<Envelope>, max: nat, states: seq<Server>, steps: seq<Step>, i: nat,
                     sequence: nat, fault: AckFault, t1: Trace, d1: Disk, cut: nat)
    requires Run(c, max, states, steps) && i < |states|
    requires forall k :: 0 <= k < i && steps[k].DoAck? ==> steps[k].ackFault != CheckpointFailed(true)
    requires states[i].mem.acked < sequence <= states[i].mem.latest
    requires d1 == Ack(c, states[i].mem, states[i].disk, sequence, fault).1
    requires t1 == AckTrace(states[i].trace, states[i].mem, Ack(c, states[i].mem, states[i].disk, sequence, fault).0, sequence, fault)
    requires t1.from <= |t1.hist| && |Synced(c, t1)| <= cut <= |d1.log|
    ensures var m', h := Restart(c, d1, cut).0, RestartTrace(c, t1, cut).hist;
            Holds(m', states[i].mem.acked, h) || Holds(m', sequence, h)
  {
    RunInv(c, max, states, steps, i);
    RunInStep(c, max, states, steps, i);
    AckCrashAtomic(c, max, states[i].trace, states[i].mem, states[i].disk, sequence, fault, t1, d1, cut);
  }
}
