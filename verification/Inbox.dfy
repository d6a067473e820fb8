/**
 The Agent's durable inbox: every envelope is appended and synced before the server is told
 to forget it. A baseline file says where an initially empty inbox starts counting.
 */
module Inbox {
  import opened Basics
  import opened RecordLog
  import opened Envelopes

  datatype Disk = Disk(log: seq<Byte>, baseline: nat)

  datatype Mem = Mem(last: nat, baseline: nat, ids: map<nat, string>, bytes: nat, failed: bool)

  datatype Outcome = Accepted | IdentityChanged | Gap | TooLarge | Full | Failed

  // ---- Opening ----

  function Admit(last: nat, e: Envelope): Option<nat> {
    if e.sequence != last + 1 || e.id == "" then None else Some(e.sequence)
  }

  function Ids(es: seq<Envelope>): map<nat, string> {
    if es == [] then map[] else Ids(es[..|es| - 1])[es[|es| - 1].sequence := es[|es| - 1].id]
  }

  function LastOf(es: seq<Envelope>, baseline: nat): nat {
    if es == [] then baseline else es[|es| - 1].sequence
  }

  function Opened(d: Disk, es: seq<Envelope>, kept: nat): (Mem, Disk)
    requires kept <= |d.log|
  {
    (Mem(LastOf(es, d.baseline), d.baseline, Ids(es), kept, false), d.(log := d.log[..kept]))
  }

  function Open(c: Coding<Envelope>, d: Disk): (Mem, Disk) {
    Opened(d, Scan(c, Admit, d.baseline, d.log), Kept(c, Admit, d.baseline, d.log))
  }

  // ---- Accepting ----

  /** Appending the next event, with whatever the file system does. */
  function Write(c: Coding<Envelope>, m: Mem, d: Disk, e: Envelope, fault: WriteFault): (Mem, Disk, Outcome) {
    var record := Record(c, e);
    match fault
    case ShortWrite(n) => (m.(failed := true), d.(log := d.log + record[..Min(n, |record|)]), Failed)
    case SyncFailed => (m.(failed := true), d.(log := d.log + record), Failed)
    case NoFault =>
      (m.(last := e.sequence, ids := m.ids[e.sequence := e.id], bytes := m.bytes + |record|),
       d.(log := d.log + record), Accepted)
  }

  function AcceptOne(c: Coding<Envelope>, max: nat, m: Mem, d: Disk, e: Envelope, fault: WriteFault): (Mem, Disk, Outcome) {
    if e.sequence <= m.last then
      var known := if e.sequence in m.ids then m.ids[e.sequence] else "";
      (m, d, if known == e.id then Accepted else IdentityChanged)
    else if e.sequence != m.last + 1 then (m, d, Gap)
    else if !Fits(c, e) then (m, d, TooLarge)
    else if m.bytes + |Record(c, e)| > max then (m, d, Full)
    else Write(c, m, d, e, fault)
  }

  /** The loop over a batch from position k on; the file system misbehaves, if at all, at position `at`. */
  function AcceptFrom(c: Coding<Envelope>, max: nat, m: Mem, d: Disk, events: seq<Envelope>, k: nat, at: int, fault: WriteFault)
    : (Mem, Disk, Outcome)
    requires k <= |events|
    decreases |events| - k
  {
    if k == |events| then (m, d, Accepted)
    else
      var (m', d', o) := AcceptOne(c, max, m, d, events[k], if at == k then fault else NoFault);
      if o.Accepted? then AcceptFrom(c, max, m', d', events, k + 1, at, fault) else (m', d', o)
  }

  function Accept(c: Coding<Envelope>, max: nat, m: Mem, d: Disk, events: seq<Envelope>, at: int, fault: WriteFault)
    : (Mem, Disk, Outcome)
  {
    if m.failed then (m, d, Failed) else AcceptFrom(c, max, m, d, events, 0, at, fault)
  }

  // ---- Baseline ----

  datatype BaselineFault = NoBaselineFault | BaselineFailed(replaced: bool)

  /** None means the call returned an error. */
  function SetBaseline(m: Mem, d: Disk, sequence: nat, fault: BaselineFault): (Mem, Disk, bool) {
    if sequence <= m.last then (m, d, true)
    else if m.ids != map[] || m.bytes != 0 then (m, d, false)
    else match fault
      case BaselineFailed(replaced) => (m, if replaced then d.(baseline := sequence) else d, false)
      case NoBaselineFault => (m.(last := sequence, baseline := sequence), d.(baseline := sequence), true)
  }

  // ---- Reading back ----

  /** None stands for every error ReadAfter returns. */
  function ReadAfter(c: Coding<Envelope>, m: Mem, d: Disk, after: nat, limit: int): Option<seq<Envelope>> {
    if after < m.baseline || after > m.last || limit < 1 then None
    else Select(c, Past(after), limit, d.log)
  }

  // ---- The store ----

  lemma IdsSnoc(es: seq<Envelope>, e: Envelope)
    ensures Ids(es + [e]) == Ids(es)[e.sequence := e.id]
  {
    assert (es + [e])[..|es|] == es;
  }

  method CollectIds(es: seq<Envelope>) returns (ids: map<nat, string>)
    ensures ids == Ids(es)
  {
    ids := map[];
    for i := 0 to |es|
      invariant ids == Ids(es[..i])
    {
      IdsSnoc(es[..i], es[i]);
      assert es[..i + 1] == es[..i] + [es[i]];
      ids := ids[es[i].sequence := es[i].id];
    }
    assert es[..|es|] == es;
  }

  class Store {
    const coding: Coding<Envelope>
    const max: nat
    var last: nat
    var baseline: nat
    var ids: map<nat, string>
    var bytes: nat
    var failed: bool
    var disk: Disk

    function View(): Mem
      reads this
    {
      Mem(last, baseline, ids, bytes, failed)
    }

    constructor (coding: Coding<Envelope>, max: nat, disk: Disk)
      ensures this.coding == coding && this.max == max && this.disk == disk
      ensures View() == Mem(disk.baseline, disk.baseline, map[], 0, false)
    {
      this.coding, this.max, this.disk := coding, max, disk;
      last, baseline, ids, bytes, failed := disk.baseline, disk.baseline, map[], 0, false;
    }

    /** Loads the log and cuts the file where reading stopped. */
    method Recover()
      requires last == baseline == disk.baseline && ids == map[] && !failed
      modifies this
      ensures (View(), disk) == Open(coding, old(disk))
    {
      var es, offset := ReadRecords(coding, Admit, last, disk.log);
      ids := CollectIds(es);
      if es != [] { last := es[|es| - 1].sequence; }
      bytes := offset;
      disk := disk.(log := disk.log[..offset]);
    }

    /** One envelope: replayed, refused, or appended and synced. */
    method AcceptEvent(e: Envelope, fault: WriteFault) returns (o: Outcome)
      modifies this
      ensures (View(), disk, o) == AcceptOne(coding, max, old(View()), old(disk), e, fault)
    {
      if e.sequence <= last {
        var known := if e.sequence in ids then ids[e.sequence] else "";
        return if known != e.id then IdentityChanged else Accepted;
      }
      if e.sequence != last + 1 { return Gap; }
      if !Fits(coding, e) { return TooLarge; }
      var record := Record(coding, e);
      if bytes + |record| > max { return Full; }
      match fault {
        case ShortWrite(n) =>
          disk := disk.(log := disk.log + record[..Min(n, |record|)]);
          failed := true;
          return Failed;
        case SyncFailed =>
          disk := disk.(log := disk.log + record);
          failed := true;
          return Failed;
        case NoFault =>
          disk := disk.(log := disk.log + record);
      }
      bytes := bytes + |record|;
      last := e.sequence;
      ids := ids[e.sequence := e.id];
      return Accepted;
    }

    method AcceptBatch(events: seq<Envelope>, at: int, fault: WriteFault) returns (durable: nat, o: Outcome)
      modifies this
      ensures (View(), disk, o) == Accept(coding, max, old(View()), old(disk), events, at, fault)
      ensures durable == last
    {
      if failed { return last, Failed; }
      ghost var goal := AcceptFrom(coding, max, View(), disk, events, 0, at, fault);
      var i := 0;
      while i < |events|
        invariant 0 <= i <= |events|
        invariant AcceptFrom(coding, max, View(), disk, events, i, at, fault) == goal
      {
        o := AcceptEvent(events[i], if at == i then fault else NoFault);
        if !o.Accepted? { return last, o; }
        i := i + 1;
      }
      return last, Accepted;
    }

    method InitBaseline(sequence: nat, fault: BaselineFault) returns (ok: bool)
      modifies this
      ensures (View(), disk, ok) == SetBaseline(old(View()), old(disk), sequence, fault)
    {
      if sequence <= last { return true; }
      if ids != map[] || bytes != 0 { return false; }
      if fault.BaselineFailed? {
        if fault.replaced { disk := disk.(baseline := sequence); }
        return false;
      }
      disk := disk.(baseline := sequence);
      last := sequence;
      baseline := sequence;
      return true;
    }

    /** The read loop over the file; never loads the whole inbox into the result. */
    method Read(after: nat, limit: int) returns (r: Option<seq<Envelope>>)
      ensures r == ReadAfter(coding, View(), disk, after, limit)
    {
      if after < baseline || after > last || limit < 1 { return None; }
      r := ReadSome(coding, Past(after), limit, disk.log);
    }
  }

  method OpenStore(c: Coding<Envelope>, max: nat, disk: Disk) returns (s: Store?)
    ensures s == null <==> max < MAX_RECORD_SIZE
    ensures s != null ==> s.coding == c && s.max == max && (s.View(), s.disk) == Open(c, disk)
  {
    if max < MAX_RECORD_SIZE { return null; }
    s := new Store(c, max, disk);
    s.Recover();
  }
}
