/**
 The webhook ledger: which targets of which events need no further delivery. Marks are
 appended to a record log; once an event is passed for good its marks are deleted and the
 file is rewritten from memory.
 */
module Ledger {
  import opened Basics
  import opened RecordLog

  datatype Status = Succeeded | PermanentFailed

  datatype Mark = Mark(event: string, target: string, status: Status)

  const NUL: char := '\0'

  function Key(event: string, target: string): string {
    event + [NUL] + target
  }

  /** Splitting a key at its first NUL; None when it has none. */
  function Split(key: string): Option<(string, string)> {
    if key == "" then None
    else if key[0] == NUL then Some(("", key[1..]))
    else match Split(key[1..]) case None => None case Some((e, t)) => Some(([key[0]] + e, t))
  }

  lemma {:induction false} KeySplit(e: string, t: string)
    requires NUL !in e
    ensures Split(Key(e, t)) == Some((e, t))
    decreases |e|
  {
    var k := Key(e, t);
    if e == "" {
      assert k[1..] == t;
    } else {
      assert k[1..] == Key(e[1..], t) && e == [e[0]] + e[1..];
      KeySplit(e[1..], t);
    }
  }

  /** Keys of different marks differ as long as event IDs hold no NUL. */
  lemma KeyInjective(e1: string, t1: string, e2: string, t2: string)
    requires NUL !in e1 && NUL !in e2
    requires Key(e1, t1) == Key(e2, t2)
    ensures e1 == e2 && t1 == t2
  {
    KeySplit(e1, t1);
    KeySplit(e2, t2);
  }

  predicate HasPrefix(s: string, prefix: string) {
    |prefix| <= |s| && s[..|prefix|] == prefix
  }

  /** Deleting by the prefix "event, NUL" hits exactly that event's marks. */
  lemma PrefixSelectsEvent(event: string, e: string, t: string)
    requires NUL !in event && NUL !in e
    ensures HasPrefix(Key(e, t), event + [NUL]) <==> e == event
  {
    var k := Key(e, t);
    if HasPrefix(k, event + [NUL]) {
      assert k == Key(event, k[|event| + 1..]) by {
        assert k == k[..|event| + 1] + k[|event| + 1..];
      }
      KeyInjective(event, k[|event| + 1..], e, t);
    }
    assert k[..|e| + 1] == e + [NUL];
  }

  /** Recovery's check. */
  function Admit(u: (), m: Mark): Option<()> {
    if m.event == "" || m.target == "" then None else Some(())
  }

  function Entries(ms: seq<Mark>): map<string, Status> {
    if ms == [] then map[]
    else
      var last := ms[|ms| - 1];
      Entries(ms[..|ms| - 1])[Key(last.event, last.target) := last.status]
  }

  lemma EntriesSnoc(ms: seq<Mark>, m: Mark)
    ensures Entries(ms + [m]) == Entries(ms)[Key(m.event, m.target) := m.status]
  {
    assert (ms + [m])[..|ms|] == ms;
  }

  /** What opening loads from the file, and the bytes it keeps. */
  function Open(c: Coding<Mark>, log: seq<Byte>): (map<string, Status>, seq<Byte>) {
    (Entries(Scan(c, Admit, (), log)), log[..Kept(c, Admit, (), log)])
  }

  // ---- Marking ----

  /** Appending and syncing one mark: on a failure memory is unchanged, and the file keeps whatever was written. */
  function Write(c: Coding<Mark>, entries: map<string, Status>, log: seq<Byte>, m: Mark, fault: WriteFault)
    : (map<string, Status>, seq<Byte>, bool)
  {
    var record := Record(c, m);
    match fault
    case ShortWrite(n) => (entries, log + record[..Min(n, |record|)], false)
    case SyncFailed => (entries, log + record, false)
    case NoFault => (entries[Key(m.event, m.target) := m.status], log + record, true)
  }

  /** A mark that is already there is left alone. */
  function MarkTarget(c: Coding<Mark>, entries: map<string, Status>, log: seq<Byte>, m: Mark, fault: WriteFault)
    : (map<string, Status>, seq<Byte>, bool)
  {
    if Key(m.event, m.target) in entries then (entries, log, true) else Write(c, entries, log, m, fault)
  }

  // ---- Forgetting a finished event ----

  function Without(entries: map<string, Status>, event: string): map<string, Status> {
    map k | k in entries && !HasPrefix(k, event + [NUL]) :: entries[k]
  }

  /** The record an entry is written back as. */
  function MarkOf(entries: map<string, Status>, key: string): Mark {
    match Split(key)
    case Some((event, target)) => Mark(event, target, if key in entries then entries[key] else Succeeded)
    case None => Mark("", "", Succeeded)
  }

  function MarksOf(entries: map<string, Status>, order: seq<string>): seq<Mark> {
    if order == [] then []
    else MarksOf(entries, order[..|order| - 1]) + [MarkOf(entries, order[|order| - 1])]
  }

  /** `failed` says that rewriting the file failed, `replaced` that the new file was in place by then. */
  datatype RewriteFault = RewriteFault(failed: bool, replaced: bool)

  /** Deletes an event's marks and, when there were any, rewrites the file in the order in which the map yields its keys. */
  function Complete(c: Coding<Mark>, entries: map<string, Status>, log: seq<Byte>, event: string, order: seq<string>, fault: RewriteFault)
    : (map<string, Status>, seq<Byte>)
  {
    var kept := Without(entries, event);
    if kept == entries || (fault.failed && !fault.replaced) then (kept, log)
    else (kept, LogBytes(c, MarksOf(kept, order)))
  }

  /** `order` is a way in which iterating over the map may yield its keys. */
  ghost predicate Enumerates(order: seq<string>, entries: map<string, Status>) {
    forall k :: k in order <==> k in entries
  }

  /** A mark that recovery admits, in its own and in either status, and whose key splits back into it. */
  ghost predicate Sound(c: Coding<Mark>, m: Mark) {
    && m.event != "" && m.target != "" && NUL !in m.event
    && Fits(c, m) && Fits(c, m.(status := Succeeded)) && Fits(c, m.(status := PermanentFailed))
  }

  ghost predicate SoundKey(c: Coding<Mark>, key: string) {
    match Split(key)
    case Some((event, target)) => Sound(c, Mark(event, target, Succeeded)) && Key(event, target) == key
    case None => false
  }

  ghost predicate AllSound(c: Coding<Mark>, ms: seq<Mark>) {
    forall i :: 0 <= i < |ms| ==> Sound(c, ms[i])
  }

  lemma {:induction false} SoundAdmitted(c: Coding<Mark>, ms: seq<Mark>)
    requires AllSound(c, ms)
    ensures Admits(Admit, (), ms)
  {
    if ms != [] {
      SoundAdmitted(c, ms[1..]);
    }
  }

  /** Every entry can go back into the file. */
  lemma {:induction false} EntriesSplit(c: Coding<Mark>, ms: seq<Mark>)
    requires AllSound(c, ms)
    ensures forall k :: k in Entries(ms) ==> SoundKey(c, k)
    decreases |ms|
  {
    if ms != [] {
      EntriesSplit(c, ms[..|ms| - 1]);
      KeySplit(ms[|ms| - 1].event, ms[|ms| - 1].target);
    }
  }

  /** An entry goes back as a sound mark with its own key and status. */
  lemma MarkOfEntry(c: Coding<Mark>, entries: map<string, Status>, key: string)
    requires key in entries && SoundKey(c, key)
    ensures var m := MarkOf(entries, key);
            Sound(c, m) && Key(m.event, m.target) == key && m.status == entries[key]
  {
    var m := MarkOf(entries, key);
    var m0 := Mark(m.event, m.target, Succeeded);
    if m.status.Succeeded? {
      assert m == m0.(status := Succeeded);
    } else {
      assert m == m0.(status := PermanentFailed);
    }
  }

  lemma AllSoundSnoc(c: Coding<Mark>, ms: seq<Mark>, m: Mark)
    requires AllSound(c, ms) && Sound(c, m)
    ensures AllSound(c, ms + [m])
  {
  }

  /** Writing the entries back, in any order, gives a file that loads as the same entries. */
  lemma {:induction false} MarksOfEntries(c: Coding<Mark>, entries: map<string, Status>, order: seq<string>)
    requires forall k :: k in order ==> k in entries && SoundKey(c, k)
    ensures AllSound(c, MarksOf(entries, order))
    ensures forall k :: k in Entries(MarksOf(entries, order)) <==> k in order
    ensures forall k :: k in order ==> Entries(MarksOf(entries, order))[k] == entries[k]
    decreases |order|
  {
    if order != [] {
      var init, last := order[..|order| - 1], order[|order| - 1];
      assert order == init + [last];
      MarksOfEntries(c, entries, init);
      MarkOfEntry(c, entries, last);
      AllSoundSnoc(c, MarksOf(entries, init), MarkOf(entries, last));
      EntriesSnoc(MarksOf(entries, init), MarkOf(entries, last));
    }
  }

  lemma RewriteExact(c: Coding<Mark>, entries: map<string, Status>, order: seq<string>)
    requires Enumerates(order, entries) && forall k :: k in entries ==> SoundKey(c, k)
    ensures AllSound(c, MarksOf(entries, order)) && Entries(MarksOf(entries, order)) == entries
  {
    MarksOfEntries(c, entries, order);
  }

  // ---- Reading the file back ----

  /** A file of sound marks and an unreadable tail loads as exactly those marks. */
  lemma OpenExact(c: Coding<Mark>, ms: seq<Mark>, tail: seq<Byte>)
    requires Lawful(c) && AllSound(c, ms) && !Parse(c, tail).Body?
    ensures Scan(c, Admit, (), LogBytes(c, ms) + tail) == ms
    ensures Open(c, LogBytes(c, ms) + tail) == (Entries(ms), LogBytes(c, ms))
  {
    SoundAdmitted(c, ms);
    RecoveryExact(c, Admit, (), ms, tail);
  }

  /**
   A mark written behind a torn one is not durable: once a write has broken off after its header,
   opening finds only the marks that preceded it, however many marks have been accepted and
   synced since, until the missing length has been made up.
   */
  lemma MarksBehindTornWriteAreLost(c: Coding<Mark>, ms: seq<Mark>, torn: Mark, n: nat, later: seq<Byte>)
    requires Lawful(c) && AllSound(c, ms) && Sound(c, torn)
    requires HEADER_SIZE <= n && n + |later| < |Record(c, torn)|
    ensures Open(c, LogBytes(c, ms) + (Record(c, torn)[..n] + later)) == (Entries(ms), LogBytes(c, ms))
  {
    var tail := Record(c, torn)[..n] + later;
    assert tail[..4] == Record(c, torn)[..4] == PutWord(|c.marshal(torn)|);
    WordRoundTrip(|c.marshal(torn)|);
    OpenExact(c, ms, tail);
  }

  /**
   Such a mark is the same one written again: torn off inside the length of a short record, it leaves
   zeros, in front of which no length can be read.
   */
  lemma RepeatedMarkUnread(c: Coding<Mark>, m: Mark, n: nat)
    requires 1 <= n <= 3 && |c.marshal(m)| < 256
    ensures !Parse(c, Record(c, m)[..n] + Record(c, m)).Body?
  {
    var tail := Record(c, m)[..n] + Record(c, m);
    assert Record(c, m)[..3] == [0, 0, 0];
    assert tail[..4] == [0, 0, 0, 0];
  }

  // ---- The ledger ----

  class Store {
    const coding: Coding<Mark>
    var entries: map<string, Status>
    var log: seq<Byte>

    constructor (coding: Coding<Mark>, log: seq<Byte>)
      ensures this.coding == coding && this.log == log && entries == map[]
    {
      this.coding, this.log, entries := coding, log, map[];
    }

    /** Loads the marks and cuts the file behind the last whole one. */
    method Recover()
      requires entries == map[]
      modifies this
      ensures (entries, log) == Open(coding, old(log))
    {
      var ms, offset := ReadRecords(coding, Admit, (), log);
      for i := 0 to |ms|
        invariant entries == Entries(ms[..i]) && log == old(log)
      {
        EntriesSnoc(ms[..i], ms[i]);
        assert ms[..i + 1] == ms[..i] + [ms[i]];
        entries := entries[Key(ms[i].event, ms[i].target) := ms[i].status];
      }
      assert ms[..|ms|] == ms;
      log := log[..offset];
    }

    method Done(event: string, target: string) returns (done: bool)
      ensures done <==> Key(event, target) in entries
    {
      done := Key(event, target) in entries;
    }

    method MarkDone(event: string, target: string, status: Status, fault: WriteFault) returns (ok: bool)
      modifies this
      ensures (entries, log, ok) == MarkTarget(coding, old(entries), old(log), Mark(event, target, status), fault)
    {
      var key := Key(event, target);
      if key in entries { return true; }
      var record := Record(coding, Mark(event, target, status));
      match fault {
        case ShortWrite(n) =>
          log := log + record[..Min(n, |record|)];
          return false;
        case SyncFailed =>
          log := log + record;
          return false;
        case NoFault =>
          log := log + record;
      }
      entries := entries[key := status];
      return true;
    }

    method CompleteEvent(event: string, fault: RewriteFault) returns (ok: bool, ghost order: seq<string>)
      modifies this
      ensures Enumerates(order, entries)
      ensures (entries, log) == Complete(coding, old(entries), old(log), event, order, fault)
      ensures ok == (entries == old(entries) || !fault.failed)
    {
      var kept := Without(entries, event);
      var changed := kept != entries;
      entries := kept;
      var temp;
      temp, order := Rewrite(coding, entries);
      if !changed { return true, order; }
      if !fault.failed || fault.replaced { log := temp; }
      ok := !fault.failed;
    }
  }

  /** Writes every entry into a fresh file, in whatever order the map yields them. */
  method Rewrite(c: Coding<Mark>, entries: map<string, Status>) returns (temp: seq<Byte>, ghost order: seq<string>)
    ensures Enumerates(order, entries)
    ensures temp == LogBytes(c, MarksOf(entries, order))
  {
    temp, order := [], [];
    var left := entries.Keys;
    while left != {}
      invariant left <= entries.Keys
      invariant forall k :: k in order <==> k in entries && k !in left
      invariant temp == LogBytes(c, MarksOf(entries, order))
      decreases left
    {
      var key :| key in left;
      var mark := MarkOf(entries, key);
      assert (order + [key])[..|order|] == order;
      LogBytesAppend(c, MarksOf(entries, order), [mark]);
      LogBytesOne(c, mark);
      temp := temp + Record(c, mark);
      order := order + [key];
      left := left - {key};
    }
  }

  /**
   Completing an event forgets its marks and no other, in memory always; on disk as soon as the rewritten file
   is in place, and an event without marks leaves the file alone.
   */
  lemma CompleteAnswers(c: Coding<Mark>, entries: map<string, Status>, log: seq<Byte>, event: string, order: seq<string>, fault: RewriteFault)
    requires Lawful(c) && AllSoundKeys(c, entries) && Enumerates(order, Without(entries, event)) && NUL !in event
    ensures var (kept, log') := Complete(c, entries, log, event, order, fault);
            && (forall k :: k in kept ==> k in entries && kept[k] == entries[k])
            && (forall e, t :: NUL !in e && Key(e, t) in entries ==> (Key(e, t) in kept <==> e != event))
            && (kept == entries || (fault.failed && !fault.replaced) ==> log' == log)
            && (kept != entries && (fault.failed ==> fault.replaced) ==> Open(c, log') == (kept, log'))
  {
    var kept := Without(entries, event);
    WithoutForgets(entries, event);
    RewrittenOpens(c, kept, order);
  }

  lemma WithoutForgets(entries: map<string, Status>, event: string)
    requires NUL !in event
    ensures var kept := Without(entries, event);
            && (forall k :: k in kept ==> k in entries && kept[k] == entries[k])
            && (forall e, t :: NUL !in e && Key(e, t) in entries ==> (Key(e, t) in kept <==> e != event))
  {
    forall e, t | NUL !in e && Key(e, t) in entries
      ensures Key(e, t) in Without(entries, event) <==> e != event
    {
      PrefixSelectsEvent(event, e, t);
    }
  }

  lemma RewrittenOpens(c: Coding<Mark>, entries: map<string, Status>, order: seq<string>)
    requires Lawful(c) && AllSoundKeys(c, entries) && Enumerates(order, entries)
    ensures Open(c, LogBytes(c, MarksOf(entries, order))) == (entries, LogBytes(c, MarksOf(entries, order)))
  {
    var log := LogBytes(c, MarksOf(entries, order));
    RewriteExact(c, entries, order);
    assert log + [] == log;
    assert !Parse(c, []).Body?;
    OpenExact(c, MarksOf(entries, order), []);
  }

  ghost predicate AllSoundKeys(c: Coding<Mark>, entries: map<string, Status>) {
    forall k :: k in entries ==> SoundKey(c, k)
  }
}
