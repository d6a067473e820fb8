/**
 The server's bounded durable event log: a checkpoint file holding the acknowledged
 sequence and a record log holding at least everything after it.

 The first half gives the operations as functions of the volatile state (`Mem`) and the
 files (`Disk`); the class is the store itself, proved to compute those functions. An I/O
 failure is an argument, so that every outcome of the file system is covered.
 */
module Outbox {
  import opened Basics
  import opened RecordLog
  import opened Envelopes

  datatype Priority = Normal | Critical

  /** An absent checkpoint file reads as acknowledged sequence 0. */
  datatype Disk = Disk(log: seq<Byte>, checkpoint: nat)

  datatype Mem = Mem(events: seq<Envelope>, acked: nat, latest: nat, bytes: nat, dropped: nat, failed: bool, closed: bool)

  datatype AppendResult = Appended(envelope: Envelope) | Full | TooLarge | Refused | AppendFailed

  datatype AckFault = NoAckFault | CheckpointFailed(checkpointReplaced: bool) | CompactFailed(logReplaced: bool)
  datatype AckResult = AckOk | AckOutOfRange | AckFailed

  // ---- Opening ----

  datatype Progress = Progress(acked: nat, previous: Option<nat>)

  /** Recovery's own check: sequences start no later than acked + 1 and have no hole. */
  function Admit(st: Progress, e: Envelope): Option<Progress> {
    if e.sequence == 0 || e.id == "" then None
    else if (match st.previous case None => e.sequence > st.acked + 1 case Some(p) => e.sequence != p + 1) then None
    else Some(Progress(st.acked, Some(e.sequence)))
  }

  function Latest(es: seq<Envelope>, acked: nat): nat {
    if es == [] then acked
    else Max(Latest(es[..|es| - 1], acked), es[|es| - 1].sequence)
  }

  lemma LatestSnoc(es: seq<Envelope>, e: Envelope, acked: nat)
    ensures Latest(es + [e], acked) == Max(Latest(es, acked), e.sequence)
  {
    assert (es + [e])[..|es|] == es;
  }

  /** The store as recovery leaves it, given the records it read and the bytes it kept. */
  function Opened(d: Disk, es: seq<Envelope>, kept: nat): (Mem, Disk)
    requires kept <= |d.log|
  {
    (Mem(Filter(Past(d.checkpoint), es), d.checkpoint, Latest(es, d.checkpoint), kept, 0, false, false),
     Disk(d.log[..kept], d.checkpoint))
  }

  function Open(c: Coding<Envelope>, d: Disk): (Mem, Disk) {
    var start := Progress(d.checkpoint, None);
    Opened(d, Scan(c, Admit, start, d.log), Kept(c, Admit, start, d.log))
  }

  // ---- Appending ----

  function Limit(max: nat, p: Priority): nat {
    if p.Normal? then max - max / 4 else max
  }

  function Append(c: Coding<Envelope>, max: nat, m: Mem, d: Disk,
                  id: string, kind: string, now: int, payload: seq<Byte>, p: Priority, fault: WriteFault)
    : (Mem, Disk, AppendResult)
  {
    var e := Envelope(id, m.latest + 1, kind, now, payload);
    if m.closed || m.failed then (m, d, Refused)
    else if !Fits(c, e) then (m, d, TooLarge)
    else
      var record := Record(c, e);
      if m.bytes + |record| > Limit(max, p) then
        (if p.Normal? then m.(dropped := m.dropped + 1) else m, d, Full)
      else
        match fault
        case ShortWrite(n) =>
          (m.(failed := true), d.(log := d.log + record[..Min(n, |record|)]), AppendFailed)
        case SyncFailed =>
          (m.(failed := true), d.(log := d.log + record), AppendFailed)
        case NoFault =>
          (m.(events := m.events + [e], latest := e.sequence, bytes := m.bytes + |record|),
           d.(log := d.log + record), Appended(e))
  }

  // ---- Acknowledging ----

  /** The first pending event with the given sequence, or the length if there is none. */
  function IndexOf(es: seq<Envelope>, sequence: nat): (i: nat)
    ensures i <= |es|
    ensures i < |es| ==> es[i].sequence == sequence
    ensures forall j :: 0 <= j < i ==> es[j].sequence != sequence
  {
    if es == [] || es[0].sequence == sequence then 0 else 1 + IndexOf(es[1..], sequence)
  }

  /** The effect of acknowledging a pending sequence after which `rest` stays pending. */
  function Acknowledge(c: Coding<Envelope>, m: Mem, d: Disk, sequence: nat, rest: seq<Envelope>, fault: AckFault)
    : (Mem, Disk, AckResult)
  {
    var m' := m.(acked := sequence, events := rest);
    match fault
    case CheckpointFailed(replaced) => (m, if replaced then d.(checkpoint := sequence) else d, AckFailed)
    case CompactFailed(replaced) => (m', Disk(if replaced then LogBytes(c, rest) else d.log, sequence), AckFailed)
    case NoAckFault => (m'.(bytes := |LogBytes(c, rest)|), Disk(LogBytes(c, rest), sequence), AckOk)
  }

  function Ack(c: Coding<Envelope>, m: Mem, d: Disk, sequence: nat, fault: AckFault): (Mem, Disk, AckResult) {
    var i := IndexOf(m.events, sequence);
    if sequence <= m.acked then (m, d, AckOk)
    else if sequence > m.latest || i == |m.events| then (m, d, AckOutOfRange)
    else Acknowledge(c, m, d, sequence, m.events[i + 1..], fault)
  }

  // ---- Serving the unacknowledged tail ----

  datatype EventsResult = Batch(events: seq<Envelope>, acked: nat, latest: nat) | EventsRefused(acked: nat, latest: nat)

  function Events(m: Mem, after: nat, limit: int): EventsResult {
    if after != m.acked || limit < 1 then EventsRefused(m.acked, m.latest)
    else Batch(m.events[..Min(limit, |m.events|)], m.acked, m.latest)
  }

  // ---- The store's loops ----

  /** Reads records from the head of the log until one is torn, refused or missing. */
  method ReadLog(c: Coding<Envelope>, log: seq<Byte>, acked: nat)
    returns (events: seq<Envelope>, latest: nat, offset: nat)
    ensures var es := Scan(c, Admit, Progress(acked, None), log);
            events == Filter(Past(acked), es) && latest == Latest(es, acked)
    ensures offset == Kept(c, Admit, Progress(acked, None), log)
  {
    var es;
    es, offset := ReadRecords(c, Admit, Progress(acked, None), log);
    events, latest := [], acked;
    for i := 0 to |es|
      invariant events == Filter(Past(acked), es[..i]) && latest == Latest(es[..i], acked)
    {
      FilterSnoc(Past(acked), es[..i], es[i]);
      LatestSnoc(es[..i], es[i], acked);
      assert es[..i + 1] == es[..i] + [es[i]];
      if es[i].sequence > latest { latest := es[i].sequence; }
      if es[i].sequence > acked { events := events + [es[i]]; }
    }
    assert es[..|es|] == es;
  }

  method FindIndex(es: seq<Envelope>, sequence: nat) returns (index: nat)
    ensures index == IndexOf(es, sequence)
  {
    index := 0;
    while index < |es| && es[index].sequence != sequence
      invariant 0 <= index <= |es|
      invariant forall j :: 0 <= j < index ==> es[j].sequence != sequence
    {
      index := index + 1;
    }
  }

  /** The bytes of the fresh file that compaction writes. */
  method Encode(c: Coding<Envelope>, es: seq<Envelope>) returns (temp: seq<Byte>)
    ensures temp == LogBytes(c, es)
  {
    temp := [];
    var i := 0;
    while i < |es|
      invariant 0 <= i <= |es|
      invariant temp + LogBytes(c, es[i..]) == LogBytes(c, es)
    {
      assert es[i..][1..] == es[i + 1..];
      temp := temp + Record(c, es[i]);
      i := i + 1;
    }
    assert es[i..] == [];
  }

  // ---- The store ----

  class Store {
    const coding: Coding<Envelope>
    const max: nat
    var events: seq<Envelope>
    var acked: nat
    var latest: nat
    var bytes: nat
    var dropped: nat
    var failed: bool
    var closed: bool
    var disk: Disk

    function View(): Mem
      reads this
    {
      Mem(events, acked, latest, bytes, dropped, failed, closed)
    }

    constructor (coding: Coding<Envelope>, max: nat, disk: Disk)
      ensures this.coding == coding && this.max == max && this.disk == disk
      ensures View() == Mem([], 0, 0, 0, 0, false, false)
    {
      this.coding, this.max, this.disk := coding, max, disk;
      events, acked, latest, bytes, dropped, failed, closed := [], 0, 0, 0, 0, false, false;
    }

    /** Reads the log and cuts the file where reading stopped. */
    method RecoverLog()
      requires events == [] && dropped == 0 && !failed && !closed && acked == disk.checkpoint
      modifies this
      ensures (View(), disk) == Open(coding, old(disk))
    {
      events, latest, bytes := ReadLog(coding, disk.log, acked);
      disk := Disk(disk.log[..bytes], disk.checkpoint);
    }

    method AppendEvent(id: string, kind: string, now: int, payload: seq<Byte>, p: Priority, fault: WriteFault)
      returns (r: AppendResult)
      modifies this
      ensures (View(), disk, r) ==
              Append(coding, max, old(View()), old(disk), id, kind, now, payload, p, fault)
    {
      if closed || failed { return Refused; }
      var envelope := Envelope(id, latest + 1, kind, now, payload);
      if |coding.marshal(envelope)| > MAX_RECORD_SIZE { return TooLarge; }
      var record := Record(coding, envelope);
      var limit := max;
      if p.Normal? { limit := limit - max / 4; }
      if bytes + |record| > limit {
        if p.Normal? { dropped := dropped + 1; }
        return Full;
      }
      match fault {
        case ShortWrite(n) =>
          disk := disk.(log := disk.log + record[..Min(n, |record|)]);
          failed := true;
          return AppendFailed;
        case SyncFailed =>
          disk := disk.(log := disk.log + record);
          failed := true;
          return AppendFailed;
        case NoFault =>
          disk := disk.(log := disk.log + record);
      }
      events := events + [envelope];
      latest := envelope.sequence;
      bytes := bytes + |record|;
      return Appended(envelope);
    }

    method AckUpTo(sequence: nat, fault: AckFault) returns (r: AckResult)
      modifies this
      ensures (View(), disk, r) == Ack(coding, old(View()), old(disk), sequence, fault)
    {
      if sequence <= acked { return AckOk; }
      if sequence > latest { return AckOutOfRange; }
      var index := FindIndex(events, sequence);
      if index == |events| { return AckOutOfRange; }
      if fault.CheckpointFailed? {
        if fault.checkpointReplaced { disk := disk.(checkpoint := sequence); }
        return AckFailed;
      }
      disk := disk.(checkpoint := sequence);
      acked := sequence;
      events := events[index + 1..];
      var temp := Encode(coding, events);
      if fault.CompactFailed? {
        if fault.logReplaced { disk := disk.(log := temp); }
        return AckFailed;
      }
      disk := disk.(log := temp);
      bytes := |temp|;
      return AckOk;
    }

    /** The head of the unacknowledged tail, for a caller that knows where it starts. */
    method EventsAfter(after: nat, limit: int) returns (r: EventsResult)
      ensures r == Events(View(), after, limit)
    {
      if after != acked || limit < 1 { return EventsRefused(acked, latest); }
      var end := limit;
      if end > |events| { end := |events|; }
      return Batch(events[..end], acked, latest);
    }
  }

  /** Opening refuses a capacity below one maximal record; otherwise it loads the checkpoint and recovers the log. */
  method OpenStore(c: Coding<Envelope>, max: nat, disk: Disk) returns (s: Store?)
    ensures s == null <==> max < MAX_RECORD_SIZE
    ensures s != null ==> s.coding == c && s.max == max && (s.View(), s.disk) == Open(c, disk)
  {
    if max < MAX_RECORD_SIZE { return null; }
    s := new Store(c, max, disk);
    s.acked := s.disk.checkpoint;
    s.RecoverLog();
  }
}
