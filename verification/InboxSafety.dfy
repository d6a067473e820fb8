/**
 What the inbox keeps when it is fed stretches of one history: its log is exactly the slice
 baseline+1..last of that history, through any failed write, crash and restart.
 */
module InboxSafety {
  import opened Basics
  import opened RecordLog
  import opened Envelopes
  import opened Inbox

  /** The durable part of the log file. */
  ghost function Synced(c: Coding<Envelope>, h: seq<Envelope>, base: nat, last: nat): seq<Byte>
    requires base <= last <= |h|
  {
    LogBytes(c, h[base..last])
  }

  /** Beyond the durable part there is at most a prefix of the next event's record. */
  ghost predicate DiskInv(c: Coding<Envelope>, h: seq<Envelope>, last: nat, d: Disk) {
    && Lawful(c) && History(c, h)
    && d.baseline <= last <= |h|
    && Prefix(Synced(c, h, d.baseline, last), d.log)
    && Prefix(d.log[|Synced(c, h, d.baseline, last)|..], if last < |h| then Record(c, h[last]) else [])
  }

  ghost predicate IdsMatch(h: seq<Envelope>, base: nat, last: nat, ids: map<nat, string>) {
    && base <= last <= |h|
    && (forall s :: s in ids <==> base < s <= last)
    && (forall s :: s in ids ==> ids[s] == h[s - 1].id)
  }

  ghost predicate Inv(c: Coding<Envelope>, h: seq<Envelope>, m: Mem, d: Disk) {
    match m
    case Mem(last, baseline, ids, bytes, true) =>
      DiskInv(c, h, last, d) && baseline == d.baseline && IdsMatch(h, baseline, last, ids) && bytes == |Synced(c, h, baseline, last)|
    case Mem(last, baseline, ids, bytes, false) =>
      && DiskInv(c, h, last, d) && baseline == d.baseline && IdsMatch(h, baseline, last, ids) && bytes == |Synced(c, h, baseline, last)|
      && d.log == Synced(c, h, baseline, last)
  }

  /** The history may grow underneath; the inbox does not notice. */
  lemma Grows(c: Coding<Envelope>, h: seq<Envelope>, e: Envelope, m: Mem, d: Disk)
    requires Inv(c, h, m, d) && History(c, h + [e])
    ensures Inv(c, h + [e], m, d)
  {
    assert (h + [e])[d.baseline..m.last] == h[d.baseline..m.last];
  }

  // ---- Accepting ----

  lemma SyncedNext(c: Coding<Envelope>, h: seq<Envelope>, base: nat, last: nat)
    requires base <= last < |h|
    ensures Synced(c, h, base, last + 1) == Synced(c, h, base, last) + Record(c, h[last])
  {
    assert h[base..last + 1] == h[base..last] + [h[last]];
    LogBytesOne(c, h[last]);
    LogBytesAppend(c, h[base..last], [h[last]]);
  }

  lemma AppendedKeeps(c: Coding<Envelope>, h: seq<Envelope>, m: Mem, d: Disk)
    requires Inv(c, h, m, d) && !m.failed && m.last < |h|
    ensures var e := h[m.last];
            Inv(c, h, m.(last := e.sequence, ids := m.ids[e.sequence := e.id], bytes := m.bytes + |Record(c, e)|),
                d.(log := d.log + Record(c, e)))
  {
    SyncedNext(c, h, m.baseline, m.last);
    IdsNext(h, m.baseline, m.last, m.ids);
  }

  lemma IdsNext(h: seq<Envelope>, base: nat, last: nat, ids: map<nat, string>)
    requires IdsMatch(h, base, last, ids) && last < |h| && h[last].sequence == last + 1
    ensures IdsMatch(h, base, last + 1, ids[h[last].sequence := h[last].id])
  {
  }

  lemma AppendFailedKeeps(c: Coding<Envelope>, h: seq<Envelope>, m: Mem, d: Disk, n: nat)
    requires Inv(c, h, m, d) && !m.failed && m.last < |h| && n <= |Record(c, h[m.last])|
    ensures Inv(c, h, m.(failed := true), d.(log := d.log + Record(c, h[m.last])[..n]))
  {
    var record := Record(c, h[m.last]);
    assert (d.log + record[..n])[|d.log|..] == record[..n];
  }

  /**
   The next event of a batch that starts no later than the end of the inbox and not before its
   baseline is taken, or refused only for space or an I/O failure: never for a gap, a changed
   identity or its size.
   */
  lemma AcceptOneKeeps(c: Coding<Envelope>, max: nat, h: seq<Envelope>, m: Mem, d: Disk, i: nat, fault: WriteFault)
    requires Inv(c, h, m, d) && !m.failed
    requires m.baseline <= i < |h| && i <= m.last
    ensures var (m', d', o) := AcceptOne(c, max, m, d, h[i], fault);
            && Inv(c, h, m', d') && m'.baseline == m.baseline
            && (o == Accepted || o == Full || o == Failed)
            && (o.Accepted? ==> !m'.failed && m'.last == Max(m.last, i + 1))
            && (!o.Accepted? ==> m'.last == m.last)
            && (m'.failed ==> m'.last < |h|)
  {
    if i == m.last {
      var record := Record(c, h[i]);
      match fault {
        case NoFault => AppendedKeeps(c, h, m, d);
        case ShortWrite(n) => AppendFailedKeeps(c, h, m, d, Min(n, |record|));
        case SyncFailed =>
          AppendFailedKeeps(c, h, m, d, |record|);
          assert record[..|record|] == record;
      }
    }
  }

  // ---- Crash and restart ----

  function Restart(c: Coding<Envelope>, d: Disk, cut: nat): (Mem, Disk)
    requires cut <= |d.log|
  {
    Open(c, d.(log := d.log[..cut]))
  }

  lemma {:induction false} SliceAdmitted(h: seq<Envelope>, base: nat, last: nat)
    requires forall i :: 0 <= i < |h| ==> h[i].sequence == i + 1 && h[i].id != ""
    requires base <= last <= |h|
    ensures Admits(Admit, base, h[base..last])
    decreases last - base
  {
    if base < last {
      assert h[base..last][0] == h[base] && h[base..last][1..] == h[base + 1..last];
      SliceAdmitted(h, base + 1, last);
    }
  }

  lemma IdsSnocSlice(h: seq<Envelope>, base: nat, last: nat)
    requires base <= last < |h|
    ensures Ids(h[base..last + 1]) == Ids(h[base..last])[h[last].sequence := h[last].id]
  {
    IdsSnoc(h[base..last], h[last]);
    assert h[base..last + 1] == h[base..last] + [h[last]];
  }

  lemma {:induction false} IdsOfSlice(h: seq<Envelope>, base: nat, last: nat)
    requires forall i :: 0 <= i < |h| ==> h[i].sequence == i + 1
    requires base <= last <= |h|
    ensures IdsMatch(h, base, last, Ids(h[base..last]))
    decreases last
  {
    if base < last {
      IdsOfSlice(h, base, last - 1);
      IdsNext(h, base, last - 1, Ids(h[base..last - 1]));
      IdsSnocSlice(h, base, last - 1);
    }
  }

  lemma OpenSlice(c: Coding<Envelope>, h: seq<Envelope>, last: nat, d: Disk, tail: seq<Byte>)
    requires Lawful(c) && History(c, h) && d.baseline <= last <= |h|
    requires d.log == Synced(c, h, d.baseline, last) + tail && !Parse(c, tail).Body?
    ensures var (m', d') := Open(c, d);
            Inv(c, h, m', d') && m'.last == last && !m'.failed && d'.baseline == d.baseline
  {
    var es, k := h[d.baseline..last], |Synced(c, h, d.baseline, last)|;
    assert Open(c, d) == Opened(d, es, k) by {
      SliceAdmitted(h, d.baseline, last);
      RecoveryExact(c, Admit, d.baseline, es, tail);
    }
    IdsOfSlice(h, d.baseline, last);
    assert d.log[..k] == Synced(c, h, d.baseline, last);
  }

  /** Recovery brings back every durable event, and the one being written exactly when all of it reached the disk. */
  lemma RestartKeeps(c: Coding<Envelope>, h: seq<Envelope>, last: nat, d: Disk, cut: nat)
    requires DiskInv(c, h, last, d)
    requires |Synced(c, h, d.baseline, last)| <= cut <= |d.log|
    ensures var (m', d') := Restart(c, d, cut);
            && Inv(c, h, m', d') && !m'.failed && d'.baseline == d.baseline
            && m'.last == if last < |h| && cut == |Synced(c, h, d.baseline, last)| + |Record(c, h[last])| then last + 1 else last
  {
    var d1 := d.(log := d.log[..cut]);
    var synced := Synced(c, h, d.baseline, last);
    var tail := d1.log[|synced|..];
    assert d1.log == synced + tail && tail == d.log[|synced|..][..cut - |synced|];
    if last < |h| && cut == |synced| + |Record(c, h[last])| {
      assert tail == Record(c, h[last]);
      WholeEvent(c, h, last, d1);
    } else {
      if last < |h| {
        ParsePartial(c, h[last], tail);
      }
      OpenSlice(c, h, last, d1, tail);
    }
  }

  /** The event being written is there in full. */
  lemma WholeEvent(c: Coding<Envelope>, h: seq<Envelope>, last: nat, d: Disk)
    requires Lawful(c) && History(c, h) && d.baseline <= last < |h|
    requires d.log == Synced(c, h, d.baseline, last) + Record(c, h[last])
    ensures var (m', d') := Open(c, d);
            Inv(c, h, m', d') && m'.last == last + 1 && !m'.failed && d'.baseline == d.baseline
  {
    SyncedNext(c, h, d.baseline, last);
    assert d.log == Synced(c, h, d.baseline, last + 1) + [];
    OpenSlice(c, h, last + 1, d, []);
  }

  // ---- Reading back ----

  lemma ReadSlice(c: Coding<Envelope>, h: seq<Envelope>, base: nat, last: nat, after: nat, limit: nat)
    requires Lawful(c) && History(c, h) && base <= after <= last <= |h|
    ensures Select(c, Past(after), limit, Synced(c, h, base, last)) == Some(h[after..Min(last, after + limit)])
  {
    SelectWhole(c, Past(after), limit, h[base..last]);
    PastHistory(h, base, after, last);
    CutSlice(h, after, last, limit);
  }

  lemma CutSlice(h: seq<Envelope>, after: nat, last: nat, limit: nat)
    requires after <= last <= |h|
    ensures h[after..Min(last, after + limit)] == if last - after >= limit then h[after..last][..limit] else h[after..last]
  {
  }

  /** A healthy inbox reads back exactly the next events of the history; a cursor outside [baseline, last] is an error. */
  lemma ReadAfterExact(c: Coding<Envelope>, h: seq<Envelope>, m: Mem, d: Disk, after: nat, limit: nat)
    requires Inv(c, h, m, d) && !m.failed && limit >= 1
    ensures ReadAfter(c, m, d, after, limit) ==
            if m.baseline <= after <= m.last then Some(h[after..Min(m.last, after + limit)]) else None
  {
    if m.baseline <= after <= m.last {
      ReadSlice(c, h, m.baseline, m.last, after, limit);
    }
  }
}
