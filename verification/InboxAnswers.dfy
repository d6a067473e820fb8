/** What the inbox answers to any envelope, and that its log never outgrows its capacity. */
module InboxAnswers {
  import opened Basics
  import opened RecordLog
  import opened Envelopes
  import opened Inbox
  import opened InboxSafety

  // ---- Opening ----

  lemma {:induction false} AdmittedNumbered(es: seq<Envelope>, last: nat)
    requires Admits(Admit, last, es)
    ensures forall i :: 0 <= i < |es| ==> es[i].sequence == last + 1 + i && es[i].id != ""
    decreases |es|
  {
    if es != [] {
      AdmittedNumbered(es[1..], es[0].sequence);
    }
  }

  lemma {:induction false} NumberedIds(es: seq<Envelope>, last: nat)
    requires forall i :: 0 <= i < |es| ==> es[i].sequence == last + 1 + i && es[i].id != ""
    ensures forall s :: s in Ids(es) <==> last < s <= last + |es|
    ensures forall s :: s in Ids(es) ==> Ids(es)[s] != ""
    decreases |es|
  {
    if es != [] {
      NumberedIds(es[..|es| - 1], last);
    }
  }

  /** Whatever bytes the log holds, the inbox opens with an identity for every sequence behind its baseline, without a hole, and drops the rest of the file. */
  lemma OpenAnyFile(c: Coding<Envelope>, d: Disk)
    ensures var (m, d') := Open(c, d);
            && m.baseline == d.baseline <= m.last && (forall s :: s in m.ids <==> m.baseline < s <= m.last)
            && (forall s :: s in m.ids ==> m.ids[s] != "")
            && Prefix(d'.log, d.log) && m.bytes == |d'.log| && d'.baseline == d.baseline && !m.failed
  {
    var es := Scan(c, Admit, d.baseline, d.log);
    ScanAdmitted(c, Admit, d.baseline, d.log);
    AdmittedNumbered(es, d.baseline);
    NumberedIds(es, d.baseline);
  }

  // ---- Accepting ----

  /** An envelope the inbox has seen is taken again without effect under its own ID, and refused without effect under any other. */
  lemma ReplayAnswered(c: Coding<Envelope>, max: nat, h: seq<Envelope>, m: Mem, d: Disk, e: Envelope, fault: WriteFault)
    requires InboxSafety.Inv(c, h, m, d) && m.baseline < e.sequence <= m.last
    ensures AcceptOne(c, max, m, d, e, fault) == (m, d, if e.id == h[e.sequence - 1].id then Accepted else IdentityChanged)
  {
  }

  /** An envelope from before the baseline is refused without effect; its identity is not known, which only an empty ID matches. */
  lemma ForgottenAnswered(c: Coding<Envelope>, max: nat, h: seq<Envelope>, m: Mem, d: Disk, e: Envelope, fault: WriteFault)
    requires InboxSafety.Inv(c, h, m, d) && e.sequence <= m.baseline
    ensures AcceptOne(c, max, m, d, e, fault) == (m, d, if e.id == "" then Accepted else IdentityChanged)
  {
  }

  /** An envelope that would leave a hole is refused without effect. */
  lemma GapAnswered(c: Coding<Envelope>, max: nat, m: Mem, d: Disk, e: Envelope, fault: WriteFault)
    requires e.sequence > m.last + 1
    ensures AcceptOne(c, max, m, d, e, fault) == (m, d, Gap)
  {
  }

  /** The next envelope is refused, without effect, exactly for its size or for want of space; otherwise its record goes to the end of the log. */
  lemma NextAnswered(c: Coding<Envelope>, max: nat, m: Mem, d: Disk, e: Envelope, fault: WriteFault, size: nat)
    requires e.sequence == m.last + 1 && size == 8 + |c.marshal(e)|
    ensures var (m', d', o) := AcceptOne(c, max, m, d, e, fault);
            && (o == TooLarge <==> size > 8 + 0x10_0000)
            && (o == Full <==> size <= 8 + 0x10_0000 && m.bytes + size > max)
            && (o == TooLarge || o == Full ==> m' == m && d' == d)
            && (o == Accepted <==> size <= 8 + 0x10_0000 && m.bytes + size <= max && fault.NoFault?)
            && (o == Accepted ==> m' == m.(last := m.last + 1, ids := m.ids[e.sequence := e.id], bytes := m.bytes + size)
                                  && d' == d.(log := d.log + Record(c, e)))
            && (o == Failed ==> m' == m.(failed := true))
  {
  }

  /** An inbox that has failed refuses everything, without effect. */
  lemma FailedAnswered(c: Coding<Envelope>, max: nat, m: Mem, d: Disk, events: seq<Envelope>, at: int, fault: WriteFault)
    requires m.failed
    ensures Accept(c, max, m, d, events, at, fault) == (m, d, Failed)
  {
  }

  // ---- Whole batches ----

  /** The inbox is at or beyond position k of a stretch of the history, and there is space for the rest of it. */
  ghost predicate Taking(c: Coding<Envelope>, max: nat, h: seq<Envelope>, m: Mem, d: Disk, start: nat, k: nat, n: nat) {
    match m
    case Mem(_, _, _, _, true) => false
    case Mem(last, baseline, _, _, false) =>
      InboxSafety.Inv(c, h, m, d) && k <= n && start + n <= |h| && baseline <= start && start + k <= last && SpaceFor(c, max, h, m, start + n)
  }

  lemma {:induction false} RestAccepted(c: Coding<Envelope>, max: nat, h: seq<Envelope>, m: Mem, d: Disk, events: seq<Envelope>,
                                        start: nat, k: nat, at: int, fault: WriteFault, r: (Mem, Disk, Outcome))
    requires Taking(c, max, h, m, d, start, k, |events|) && (0 <= at < |events| ==> fault.NoFault?)
    requires k <= |events| && forall i :: 0 <= i < |events| && start + i < |h| ==> events[i] == h[start + i]
    requires r == AcceptFrom(c, max, m, d, events, k, at, fault)
    ensures r.2 == Accepted
    decreases |events| - k
  {
    if k < |events| {
      var m1, d1 := FirstAccepted(c, max, h, m, d, events, start, k, at, fault);
      RestAccepted(c, max, h, m1, d1, events, start, k + 1, at, fault, r);
    }
  }

  /** A stretch of the history that continues the inbox, for which there is space, is accepted to its end when no write fails. */
  lemma BatchAccepted(c: Coding<Envelope>, max: nat, h: seq<Envelope>, m: Mem, d: Disk, events: seq<Envelope>, start: nat, at: int, fault: WriteFault)
    requires Taking(c, max, h, m, d, start, 0, |events|) && (0 <= at < |events| ==> fault.NoFault?)
    requires start + |events| <= |h| && events == h[start..start + |events|]
    ensures Accept(c, max, m, d, events, at, fault).2 == Accepted
  {
    RestAccepted(c, max, h, m, d, events, start, 0, at, fault, AcceptFrom(c, max, m, d, events, 0, at, fault));
  }

  /** The next event is taken. */
  lemma NextTaken(c: Coding<Envelope>, max: nat, h: seq<Envelope>, m: Mem, d: Disk, e: Envelope, start: nat, k: nat, n: nat,
                  fault: WriteFault, r: (Mem, Disk, Outcome))
    requires Taking(c, max, h, m, d, start, k, n) && k < n && fault.NoFault?
    requires (start + k < |h| ==> e == h[start + k]) && r == AcceptOne(c, max, m, d, e, fault)
    ensures r.2 == Accepted && Taking(c, max, h, r.0, r.1, start, k + 1, n)
  {
    hide InboxSafety.Inv, SpaceFor, AcceptOne;
    EventTaken(c, max, h, m, d, e, start + k, start + n, fault, r.0, r.1, r.2);
  }

  /** The next event of a batch is taken, and the rest of it remains. */
  lemma FirstAccepted(c: Coding<Envelope>, max: nat, h: seq<Envelope>, m: Mem, d: Disk, events: seq<Envelope>, start: nat, k: nat,
                      at: int, fault: WriteFault) returns (m1: Mem, d1: Disk)
    requires Taking(c, max, h, m, d, start, k, |events|) && k < |events| && (0 <= at < |events| ==> fault.NoFault?)
    requires start + k < |h| ==> events[k] == h[start + k]
    ensures Taking(c, max, h, m1, d1, start, k + 1, |events|)
    ensures AcceptFrom(c, max, m, d, events, k, at, fault) == AcceptFrom(c, max, m1, d1, events, k + 1, at, fault)
  {
    var first := AcceptOne(c, max, m, d, events[k], if at == k then fault else NoFault);
    NextTaken(c, max, h, m, d, events[k], start, k, |events|, if at == k then fault else NoFault, first);
    m1, d1 := first.0, first.1;
  }

  /** The records of the history that are still to come, up to a given one, fit. */
  ghost predicate SpaceFor(c: Coding<Envelope>, max: nat, h: seq<Envelope>, m: Mem, end: nat) {
    m.last <= end <= |h| ==> m.bytes + |LogBytes(c, h[m.last..end])| <= max
  }

  lemma EventTaken(c: Coding<Envelope>, max: nat, h: seq<Envelope>, m: Mem, d: Disk, e: Envelope, i: nat, end: nat, fault: WriteFault,
                   m1: Mem, d1: Disk, o1: Outcome)
    requires InboxSafety.Inv(c, h, m, d) && !m.failed && m.baseline <= i < end <= |h| && i <= m.last && e == h[i] && fault.NoFault?
    requires SpaceFor(c, max, h, m, end) && (m1, d1, o1) == AcceptOne(c, max, m, d, e, fault)
    ensures o1 == Accepted && InboxSafety.Inv(c, h, m1, d1) && !m1.failed && m1.baseline == m.baseline && m1.last == Max(m.last, i + 1)
    ensures SpaceFor(c, max, h, m1, end)
  {
    AcceptOneKeeps(c, max, h, m, d, i, fault);
    if i == m.last {
      FirstOfSlice(c, h, i, end);
    } else {
      ReplayAnswered(c, max, h, m, d, e, fault);
    }
  }

  lemma FirstOfSlice(c: Coding<Envelope>, h: seq<Envelope>, i: nat, end: nat)
    requires i < end <= |h|
    ensures |LogBytes(c, h[i..end])| == |Record(c, h[i])| + |LogBytes(c, h[i + 1..end])|
  {
    assert h[i..end][0] == h[i] && h[i..end][1..] == h[i + 1..end];
  }

  // ---- Capacity ----

  /** The durable records, and one being written beside them, are within the capacity. */
  ghost predicate Within(c: Coding<Envelope>, max: nat, h: seq<Envelope>, last: nat, d: Disk) {
    d.baseline <= last <= |h| ==>
      var synced := |Synced(c, h, d.baseline, last)|;
      synced <= max && |d.log| <= max && (|d.log| > synced && last < |h| ==> synced + |Record(c, h[last])| <= max)
  }

  lemma AcceptWithin(c: Coding<Envelope>, max: nat, h: seq<Envelope>, m: Mem, d: Disk, i: nat, fault: WriteFault)
    requires InboxSafety.Inv(c, h, m, d) && !m.failed && m.baseline <= i < |h| && i <= m.last && Within(c, max, h, m.last, d)
    ensures var (m', d', _) := AcceptOne(c, max, m, d, h[i], fault);
            Within(c, max, h, m'.last, d') && m'.bytes <= max
  {
    if i == m.last {
      SyncedNext(c, h, m.baseline, m.last);
    }
  }

  lemma RestartWithin(c: Coding<Envelope>, max: nat, h: seq<Envelope>, last: nat, d: Disk, cut: nat)
    requires DiskInv(c, h, last, d) && |Synced(c, h, d.baseline, last)| <= cut <= |d.log| && Within(c, max, h, last, d)
    ensures var (m', d') := Restart(c, d, cut);
            Within(c, max, h, m'.last, d') && m'.bytes <= max
  {
    InboxSafety.RestartKeeps(c, h, last, d, cut);
    if last < |h| {
      SyncedNext(c, h, d.baseline, last);
    }
  }

  lemma GrowsWithin(c: Coding<Envelope>, max: nat, h: seq<Envelope>, e: Envelope, m: Mem, d: Disk)
    requires InboxSafety.Inv(c, h, m, d) && Within(c, max, h, m.last, d)
    requires m.last < |h| || !m.failed
    ensures Within(c, max, h + [e], m.last, d)
  {
    assert (h + [e])[d.baseline..m.last] == h[d.baseline..m.last];
  }

  // ---- Baseline ----

  /** An inbox that has the sequence already is left alone; one with records refuses to move; an empty one moves. */
  lemma BaselineAnswered(m: Mem, d: Disk, sequence: nat, fault: BaselineFault)
    ensures sequence <= m.last ==> SetBaseline(m, d, sequence, fault) == (m, d, true)
    ensures sequence > m.last && (m.ids != map[] || m.bytes != 0) ==> SetBaseline(m, d, sequence, fault) == (m, d, false)
    ensures sequence > m.last && m.ids == map[] && m.bytes == 0 && fault.NoBaselineFault? ==>
              SetBaseline(m, d, sequence, fault) == (m.(last := sequence, baseline := sequence), d.(baseline := sequence), true)
  {
  }
}
