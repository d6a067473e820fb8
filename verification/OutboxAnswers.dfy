/** What the outbox answers: which events it stores, which acknowledgements it takes, what it serves. */
module OutboxAnswers {
  import opened Basics
  import opened RecordLog
  import opened Envelopes
  import opened Outbox
  import opened OutboxSafety

  // ---- Opening ----

  /** Numbered on from one of them. */
  ghost predicate Gapless(es: seq<Envelope>, first: nat) {
    forall i :: 0 <= i < |es| ==> es[i].sequence == first + i && es[i].id != ""
  }

  lemma {:induction false} AdmittedGapless(es: seq<Envelope>, st: Progress)
    requires Admits(Admit, st, es) && es != []
    ensures Gapless(es, es[0].sequence) && 1 <= es[0].sequence
    ensures es[0].sequence <= (match st.previous case None => st.acked + 1 case Some(p) => p + 1)
    ensures st.previous.Some? ==> es[0].sequence == st.previous.value + 1
    decreases |es|
  {
    if |es| > 1 {
      AdmittedGapless(es[1..], Admit(st, es[0]).value);
    }
  }

  lemma {:induction false} PendingGapless(es: seq<Envelope>, first: nat, acked: nat)
    requires Gapless(es, first) && 1 <= first <= acked + 1
    ensures Gapless(Filter(Past(acked), es), acked + 1)
    ensures Latest(es, acked) == acked + |Filter(Past(acked), es)| == Max(acked, first + |es| - 1)
    decreases |es|
  {
    if es != [] {
      PendingGapless(es[..|es| - 1], first, acked);
    }
  }

  /** Whatever bytes the log holds, the store opens at its checkpoint with a gapless tail behind it and drops the rest of the file. */
  lemma OpenAnyFile(c: Coding<Envelope>, d: Disk)
    ensures var (m, d') := Open(c, d);
            && m.acked == d.checkpoint && Gapless(m.events, m.acked + 1) && m.latest == m.acked + |m.events|
            && Prefix(d'.log, d.log) && m.bytes == |d'.log| && d'.checkpoint == d.checkpoint && !m.failed && !m.closed
  {
    var start := Progress(d.checkpoint, None);
    var es := Scan(c, Admit, start, d.log);
    ScanAdmitted(c, Admit, start, d.log);
    if es != [] {
      AdmittedGapless(es, start);
      PendingGapless(es, es[0].sequence, d.checkpoint);
    }
  }

  // ---- Appending ----

  /** A store that is closed or has failed, and a record that is too large, are refused and change nothing. */
  lemma AppendRefused(c: Coding<Envelope>, max: nat, m: Mem, d: Disk, id: string, kind: string, now: int, payload: seq<Byte>,
                      p: Priority, fault: WriteFault)
    ensures var (m', d', r) := Append(c, max, m, d, id, kind, now, payload, p, fault);
            var large := |c.marshal(Envelope(id, m.latest + 1, kind, now, payload))| > 0x10_0000;
            && (r == Refused <==> m.closed || m.failed)
            && (r == TooLarge <==> !m.closed && !m.failed && large)
            && (r == Refused || r == TooLarge ==> m' == m && d' == d)
  {
  }

  /**
   A healthy store has room for a normal event up to three quarters of its capacity and for a critical
   one up to all of it; beyond that, and only then, it answers that it is full, and counts normal events
   it turned away.
   */
  lemma AppendFull(c: Coding<Envelope>, max: nat, m: Mem, d: Disk, id: string, kind: string, now: int, payload: seq<Byte>,
                   p: Priority, fault: WriteFault, size: nat)
    requires !m.closed && !m.failed
    requires size == 8 + |c.marshal(Envelope(id, m.latest + 1, kind, now, payload))| && size <= 8 + 0x10_0000
    ensures var (m', d', r) := Append(c, max, m, d, id, kind, now, payload, p, fault);
            && (r == Full <==> m.bytes + size > if p == Normal then max - max / 4 else max)
            && (r == Full ==> d' == d && m' == m.(dropped := m'.dropped))
            && m'.dropped == m.dropped + if r == Full && p == Normal then 1 else 0
  {
  }

  /** What there is room for is stored under the next number, at the end of the log, if the file system does its part. */
  lemma AppendStores(c: Coding<Envelope>, max: nat, m: Mem, d: Disk, id: string, kind: string, now: int, payload: seq<Byte>,
                     p: Priority, size: nat)
    requires !m.closed && !m.failed
    requires size == 8 + |c.marshal(Envelope(id, m.latest + 1, kind, now, payload))| && size <= 8 + 0x10_0000
    requires m.bytes + size <= if p == Normal then max - max / 4 else max
    ensures var e := Envelope(id, m.latest + 1, kind, now, payload);
            var (m', d', r) := Append(c, max, m, d, id, kind, now, payload, p, NoFault);
            && r == Appended(e) && m'.latest == m.latest + 1 && m'.events == m.events + [e] && m'.bytes == m.bytes + size
            && d' == Disk(d.log + Record(c, e), d.checkpoint)
            && m' == m.(events := m'.events, latest := m'.latest, bytes := m'.bytes)
  {
  }

  /** In every run without a compaction that failed after replacing the file, room is what the log leaves. */
  lemma RunStores(c: Coding<Envelope>, max: nat, states: seq<Server>, steps: seq<Step>, i: nat,
                  id: string, kind: string, now: int, payload: seq<Byte>, p: Priority, size: nat)
    requires Run(c, max, states, steps) && i < |states|
    requires forall k :: 0 <= k < i && steps[k].DoAck? ==> steps[k].ackFault != CompactFailed(true)
    requires !states[i].mem.closed && !states[i].mem.failed
    requires size == 8 + |c.marshal(Envelope(id, states[i].mem.latest + 1, kind, now, payload))| && size <= 8 + 0x10_0000
    ensures Append(c, max, states[i].mem, states[i].disk, id, kind, now, payload, p, NoFault).2.Appended? <==>
            |states[i].disk.log| + size <= if p == Normal then max - max / 4 else max
  {
    RunCounts(c, max, states, steps, i);
    var v := states[i];
    AppendFull(c, max, v.mem, v.disk, id, kind, now, payload, p, NoFault, size);
    if |v.disk.log| + size <= if p == Normal then max - max / 4 else max {
      AppendStores(c, max, v.mem, v.disk, id, kind, now, payload, p, size);
    }
  }

  // ---- Acknowledging ----

  /** What was acknowledged before is acknowledged again without effect; what does not exist is refused without effect. */
  lemma AckRepeated(c: Coding<Envelope>, m: Mem, d: Disk, sequence: nat, fault: AckFault)
    ensures sequence <= m.acked ==> Ack(c, m, d, sequence, fault) == (m, d, AckOk)
    ensures m.acked < sequence && sequence > m.latest ==> Ack(c, m, d, sequence, fault) == (m, d, AckOutOfRange)
  {
  }

  /** What is pending is acknowledged: memory, checkpoint and log go on from there, and the answer says so exactly when nothing failed. */
  lemma AckTakes(c: Coding<Envelope>, max: nat, t: Trace, m: Mem, d: Disk, sequence: nat, fault: AckFault)
    requires Inv(c, max, t, m, d) && m.acked < sequence <= m.latest
    ensures var (m', d', r) := Ack(c, m, d, sequence, fault);
            && (r == AckOk <==> fault == NoAckFault) && (r == AckFailed <==> fault != NoAckFault)
            && (r == AckOk ==> d' == Disk(LogBytes(c, t.hist[sequence..]), sequence) && m'.bytes == |d'.log|)
            && m' == if fault.CheckpointFailed? then m else m.(acked := sequence, events := t.hist[sequence..], bytes := m'.bytes)
  {
    AckPending(c, max, t, m, d, sequence, fault);
  }

  // ---- Serving ----

  /** A caller that knows the acknowledged sequence gets as much of the history behind it as it asks for; any other is refused. */
  lemma EventsServed(c: Coding<Envelope>, max: nat, t: Trace, m: Mem, d: Disk, after: nat, limit: int)
    requires Inv(c, max, t, m, d)
    ensures Events(m, after, limit) ==
            if after == m.acked && limit >= 1 then Batch(t.hist[m.acked..Min(m.acked + limit, |t.hist|)], m.acked, m.latest)
            else EventsRefused(m.acked, m.latest)
  {
    if after == m.acked && limit >= 1 {
      var n := Min(limit, |m.events|);
      assert t.hist[m.acked..][..n] == t.hist[m.acked..m.acked + n];
    }
  }
}
