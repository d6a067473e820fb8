/**
 Webhook delivery over whole runs: the cursor passes an event only when every planned target
 is marked, and a marked target is never delivered to again, through crashes and failed
 writes, as long as no crash falls between a mark written behind the remains of a torn one and
 the next rewrite of the file, which heals it.
 */
module WebhookSafety {
  import opened Basics
  import opened RecordLog
  import opened Envelopes
  import opened Ledger
  import opened Webhook

  /**
   Auxiliary variables: the whole marks in the file and how many of them are durable, the mark a
   failed write tore off, the keys that ever got a final outcome, the keys that were ever
   durably marked, the number of deliveries to keys marked before, whether something stands behind
   a torn mark in the file at present, and whether a crash ever struck while it did.
   */
  datatype Trace = Trace(marks: seq<Mark>, durable: nat, torn: Option<(Mark, nat)>,
                         settled: set<string>, marked: set<string>, late: nat, exposed: bool, lost: bool)

  ghost function Tail(c: Coding<Mark>, t: Trace): seq<Byte> {
    match t.torn
    case None => []
    case Some((m, n)) => if n <= |Record(c, m)| then Record(c, m)[..n] else []
  }

  ghost predicate FileOk(c: Coding<Mark>, log: seq<Byte>, t: Trace) {
    match t
    case Trace(marks, durable, torn, _, _, _, _, _) =>
      && Lawful(c) && AllSound(c, marks) && durable <= |marks|
      && (torn.Some? ==> Sound(c, torn.value.0) && 0 < torn.value.1 < |Record(c, torn.value.0)|)
      && log == LogBytes(c, marks) + Tail(c, t)
  }

  /** The event a key belongs to is one the cursor has passed. */
  ghost predicate Passed(h: seq<Envelope>, lo: nat, hi: nat, key: string) {
    exists i :: lo <= i < hi && i < |h| && HasPrefix(key, h[i].id + [NUL])
  }

  function Reached(s: State, base: nat): nat {
    match s.cursorFile case Some(n) => n case None => base
  }

  ghost predicate MarksOk(h: seq<Envelope>, base: nat, s: State, t: Trace) {
    && s.entries.Keys <= t.marked
    && t.marked <= t.settled
    && (forall k :: k in t.marked ==> k in s.entries || Passed(h, base, s.cursor, k))
  }

  /** Memory never holds a mark that a crash could lose. */
  ghost predicate Backed(s: State, t: Trace) {
    t.durable <= |t.marks| && s.entries.Keys <= Entries(t.marks[..t.durable]).Keys
  }

  /** The file holds what memory shows, and nothing that was not settled. */
  ghost predicate FileBacks(c: Coding<Mark>, s: State, t: Trace) {
    FileOk(c, s.log, t) && Backed(s, t) && Entries(t.marks).Keys <= t.settled
  }

  /** The ledger's part of the invariant; the file counts only while nothing stands behind a torn mark. */
  ghost predicate LedgerOk(c: Coding<Mark>, h: seq<Envelope>, base: nat, s: State, t: Trace) {
    match t
    case Trace(_, _, _, _, _, _, exposed, _) =>
      Lawful(c) && MarksOk(h, base, s, t) && AllSoundKeys(c, s.entries) && (!exposed ==> FileBacks(c, s, t))
  }

  /** Every target of every event behind the durable cursor has been marked. */
  ghost predicate Covered(rules: Rules, h: seq<Envelope>, base: nat, r: nat, marked: set<string>) {
    r <= |h| && forall i, target :: base <= i < r && target in Targets(rules, h[i]) ==> Key(h[i].id, target) in marked
  }

  ghost predicate CursorOk(rules: Rules, h: seq<Envelope>, base: nat, s: State) {
    match s
    case State(_, _, file, cursor) =>
      var r := Reached(s, base);
      && base <= r <= |h|
      && (cursor == r || (base <= cursor && cursor + 1 == r) || (file.None? && cursor < base))
  }

  ghost predicate Inv(c: Coding<Mark>, rules: Rules, h: seq<Envelope>, base: nat, s: State, t: Trace) {
    match t
    case Trace(_, _, _, _, _, _, _, true) => CursorOk(rules, h, base, s)
    case Trace(_, _, _, _, marked, late, _, false) =>
      && CursorOk(rules, h, base, s)
      && LedgerOk(c, h, base, s, t)
      && (base <= s.cursor < Reached(s, base) ==> AllDone(rules, s, h[s.cursor]))
      && Covered(rules, h, base, Reached(s, base), marked)
      && late == 0
  }

  /** IDs and targets from which sound marks are made. */
  ghost predicate Identified(c: Coding<Mark>, rules: Rules, h: seq<Envelope>) {
    match rules
    case Rules(_, _) =>
      && DistinctIds(h)
      && (forall i :: 0 <= i < |h| ==> h[i].id != "" && NUL !in h[i].id && h[i].sequence == i + 1)
      && (forall i, target, status :: 0 <= i < |h| && target in Targets(rules, h[i]) ==> Sound(c, Mark(h[i].id, target, status)))
  }

  // ---- The history of a step ----

  /** Whether a write leaves anything in the file. */
  predicate Leaves(fault: WriteFault) {
    !(fault.ShortWrite? && fault.written == 0)
  }

  ghost function DeliverTrace(c: Coding<Mark>, s: State, e: Envelope, target: string, outcome: Outcome, fault: WriteFault, t: Trace): Trace {
    var key := Key(e.id, target);
    if key in s.entries then t
    else
      var t1 := t.(late := t.late + if key in t.marked then 1 else 0);
      if outcome.RetryableFailure? then t1
      else WriteTrace(c, Mark(e.id, target, StatusOf(outcome)), fault, Settled(t1, key))
  }

  ghost function Settled(t: Trace, key: string): Trace {
    t.(settled := t.settled + {key})
  }

  ghost function WriteTrace(c: Coding<Mark>, m: Mark, fault: WriteFault, t: Trace): Trace {
    if t.exposed || (t.torn.Some? && Leaves(fault)) then Behind(m, fault, t)
    else
      match fault
      case NoFault => t.(marks := t.marks + [m], durable := |t.marks| + 1, marked := t.marked + {Key(m.event, m.target)})
      case SyncFailed => t.(marks := t.marks + [m])
      case ShortWrite(n) =>
        if n == 0 then t else if n < |Record(c, m)| then t.(torn := Some((m, n))) else t.(marks := t.marks + [m])
  }

  /** A write behind a torn mark: memory takes the mark, the file does not count for now. */
  ghost function Behind(m: Mark, fault: WriteFault, t: Trace): Trace {
    t.(exposed := true, marked := if fault.NoFault? then t.marked + {Key(m.event, m.target)} else t.marked)
  }

  ghost function PassTrace(s: State, e: Envelope, fault: CursorFault, order: seq<string>, rewrite: RewriteFault, t: Trace): Trace {
    var kept := Without(s.entries, e.id);
    if fault.CursorFailed? || kept == s.entries || (rewrite.failed && !rewrite.replaced) then t
    else Rewritten(t, MarksOf(kept, order))
  }

  ghost function Rewritten(t: Trace, ms: seq<Mark>): Trace {
    t.(marks := ms, durable := |ms|, torn := None, exposed := false)
  }

  ghost function StepTrace(c: Coding<Mark>, s: State, e: Envelope, step: Step, t: Trace): Trace {
    match step
    case Deliver(target, outcome, fault) => DeliverTrace(c, s, e, target, outcome, fault, t)
    case Pass(fault, order, rewrite) => PassTrace(s, e, fault, order, rewrite, t)
  }

  // ---- Keys ----

  lemma EntriesGrow(ms: seq<Mark>, j: nat, k: nat)
    requires j <= k <= |ms|
    ensures Entries(ms[..j]).Keys <= Entries(ms[..k]).Keys
    decreases k
  {
    if j < k {
      EntriesGrow(ms, j, k - 1);
      EntriesSnoc(ms[..k - 1], ms[k - 1]);
      assert ms[..k] == ms[..k - 1] + [ms[k - 1]];
    }
  }

  /** No key of the event at the cursor belongs to an event behind it. */
  lemma NotPassed(h: seq<Envelope>, base: nat, cursor: nat, target: string)
    requires DistinctIds(h) && cursor < |h|
    requires forall i :: 0 <= i < |h| ==> NUL !in h[i].id
    ensures !Passed(h, base, cursor, Key(h[cursor].id, target))
  {
    forall i | base <= i < cursor
      ensures !HasPrefix(Key(h[cursor].id, target), h[i].id + [NUL])
    {
      PrefixSelectsEvent(h[i].id, h[cursor].id, target);
    }
  }

  // ---- Every step keeps the invariant ----

  lemma AppendWhole(c: Coding<Mark>, log: seq<Byte>, m: Mark, t: Trace)
    requires FileOk(c, log, t) && t.torn.None? && Sound(c, m)
    ensures FileOk(c, log + Record(c, m), t.(marks := t.marks + [m]))
    ensures FileOk(c, log + Record(c, m), t.(marks := t.marks + [m], durable := |t.marks| + 1))
  {
    assert log == LogBytes(c, t.marks);
    assert LogBytes(c, t.marks + [m]) == log + Record(c, m) by {
      LogBytesAppend(c, t.marks, [m]);
      LogBytesOne(c, m);
    }
  }

  lemma SettledKeeps(c: Coding<Mark>, h: seq<Envelope>, base: nat, s: State, t: Trace, key: string)
    requires LedgerOk(c, h, base, s, t)
    ensures LedgerOk(c, h, base, s, Settled(t, key))
  {
  }

  lemma FileMarked(c: Coding<Mark>, s: State, t: Trace, m: Mark)
    requires Lawful(c) && FileBacks(c, s, t) && t.torn.None? && Sound(c, m) && Key(m.event, m.target) in t.settled
    ensures FileBacks(c, s.(entries := s.entries[Key(m.event, m.target) := m.status], log := s.log + Record(c, m)),
                      t.(marks := t.marks + [m], durable := |t.marks| + 1, marked := t.marked + {Key(m.event, m.target)}))
  {
    AppendWhole(c, s.log, m, t);
    BackedMarked(s.entries, t.marks, t.durable, m, t.marks + [m]);
  }

  /** Memory and file take the same mark. */
  lemma BackedMarked(entries: map<string, Status>, ms: seq<Mark>, durable: nat, m: Mark, ms': seq<Mark>)
    requires durable <= |ms| && entries.Keys <= Entries(ms[..durable]).Keys && ms' == ms + [m]
    ensures entries[Key(m.event, m.target) := m.status].Keys <= Entries(ms'[..|ms| + 1]).Keys
    ensures Entries(ms').Keys <= Entries(ms).Keys + {Key(m.event, m.target)}
  {
    EntriesGrow(ms, durable, |ms|);
    EntriesSnoc(ms, m);
    assert ms[..|ms|] == ms && ms'[..|ms| + 1] == ms';
  }

  lemma FileUnsynced(c: Coding<Mark>, s: State, t: Trace, m: Mark)
    requires Lawful(c) && FileBacks(c, s, t) && t.torn.None? && Sound(c, m) && Key(m.event, m.target) in t.settled
    ensures FileBacks(c, s.(log := s.log + Record(c, m)), t.(marks := t.marks + [m]))
  {
    AppendWhole(c, s.log, m, t);
    EntriesSnoc(t.marks, m);
    assert (t.marks + [m])[..t.durable] == t.marks[..t.durable];
  }

  /** Memory takes a mark. */
  lemma MemoryMarked(c: Coding<Mark>, h: seq<Envelope>, base: nat, s: State, s': State, t: Trace, t': Trace, m: Mark)
    requires MarksOk(h, base, s, t) && AllSoundKeys(c, s.entries) && Sound(c, m) && Key(m.event, m.target) in t.settled
    requires s'.entries == s.entries[Key(m.event, m.target) := m.status] && s'.cursor == s.cursor
    requires t'.marked == t.marked + {Key(m.event, m.target)} && t'.settled == t.settled
    ensures MarksOk(h, base, s', t') && AllSoundKeys(c, s'.entries)
  {
    KeySplit(m.event, m.target);
  }

  /** A complete write to a sound file. */
  lemma MarkedKeeps(c: Coding<Mark>, h: seq<Envelope>, base: nat, s: State, t: Trace, m: Mark)
    requires LedgerOk(c, h, base, s, t) && !t.exposed && t.torn.None? && Sound(c, m) && Key(m.event, m.target) in t.settled
    ensures LedgerOk(c, h, base, s.(entries := s.entries[Key(m.event, m.target) := m.status], log := s.log + Record(c, m)),
                     WriteTrace(c, m, NoFault, t))
  {
    var key := Key(m.event, m.target);
    FileMarked(c, s, t, m);
    MemoryMarked(c, h, base, s, s.(entries := s.entries[key := m.status], log := s.log + Record(c, m)),
                 t, t.(marks := t.marks + [m], durable := |t.marks| + 1, marked := t.marked + {key}), m);
  }

  /** A complete write that is not known to be durable. */
  lemma UnsyncedKeeps(c: Coding<Mark>, h: seq<Envelope>, base: nat, s: State, t: Trace, m: Mark)
    requires LedgerOk(c, h, base, s, t) && !t.exposed && t.torn.None? && Sound(c, m) && Key(m.event, m.target) in t.settled
    ensures LedgerOk(c, h, base, s.(log := s.log + Record(c, m)), t.(marks := t.marks + [m]))
  {
    FileUnsynced(c, s, t, m);
  }

  lemma TornKeeps(c: Coding<Mark>, h: seq<Envelope>, base: nat, s: State, t: Trace, m: Mark, n: nat)
    requires LedgerOk(c, h, base, s, t) && !t.exposed && t.torn.None? && Sound(c, m) && 0 < n < |Record(c, m)|
    ensures LedgerOk(c, h, base, s.(log := s.log + Record(c, m)[..n]), t.(torn := Some((m, n))))
  {
    assert s.log == LogBytes(c, t.marks);
    assert FileOk(c, s.log + Record(c, m)[..n], t.(torn := Some((m, n))));
  }

  lemma BehindKeeps(c: Coding<Mark>, h: seq<Envelope>, base: nat, s: State, t: Trace, m: Mark, fault: WriteFault, log: seq<Byte>)
    requires LedgerOk(c, h, base, s, t) && Sound(c, m) && Key(m.event, m.target) in t.settled
    ensures var entries := if fault.NoFault? then s.entries[Key(m.event, m.target) := m.status] else s.entries;
            LedgerOk(c, h, base, s.(entries := entries, log := log), Behind(m, fault, t))
  {
    KeySplit(m.event, m.target);
  }

  /** Writing a mark, whatever stands in the file and whatever happens. */
  lemma WriteKeeps(c: Coding<Mark>, h: seq<Envelope>, base: nat, s: State, t: Trace, m: Mark, fault: WriteFault)
    requires LedgerOk(c, h, base, s, t) && Sound(c, m) && Key(m.event, m.target) in t.settled
    ensures var (entries, log, ok) := Write(c, s.entries, s.log, m, fault);
            LedgerOk(c, h, base, s.(entries := entries, log := log), WriteTrace(c, m, fault, t))
  {
    var record := Record(c, m);
    var log := Write(c, s.entries, s.log, m, fault).1;
    assert record[..|record|] == record && s.log + record[..0] == s.log;
    if t.exposed || (t.torn.Some? && Leaves(fault)) {
      BehindKeeps(c, h, base, s, t, m, fault, log);
    } else {
      match fault {
        case NoFault => MarkedKeeps(c, h, base, s, t, m);
        case SyncFailed => UnsyncedKeeps(c, h, base, s, t, m);
        case ShortWrite(n) =>
          if n >= |record| {
            UnsyncedKeeps(c, h, base, s, t, m);
          } else if n > 0 {
            TornKeeps(c, h, base, s, t, m, n);
          }
      }
    }
  }

  lemma WriteGrows(c: Coding<Mark>, s: State, t: Trace, m: Mark, fault: WriteFault)
    ensures var (entries, _, ok) := Write(c, s.entries, s.log, m, fault);
            s.entries.Keys <= entries.Keys && t.marked <= WriteTrace(c, m, fault, t).marked
    ensures WriteTrace(c, m, fault, t).late == t.late && WriteTrace(c, m, fault, t).lost == t.lost
  {
  }

  lemma DeliverKeeps(c: Coding<Mark>, rules: Rules, h: seq<Envelope>, base: nat, s: State, t: Trace,
                     target: string, outcome: Outcome, fault: WriteFault)
    requires Identified(c, rules, h) && Inv(c, rules, h, base, s, t)
    requires base <= s.cursor < |h| && target in Targets(rules, h[s.cursor])
    ensures var e := h[s.cursor];
            Inv(c, rules, h, base, DeliverTo(c, s, e, target, outcome, fault).0, DeliverTrace(c, s, e, target, outcome, fault, t))
  {
    var e := h[s.cursor];
    var key, m := Key(e.id, target), Mark(e.id, target, StatusOf(outcome));
    if key !in s.entries && !outcome.RetryableFailure? {
      var t1 := t.(late := t.late + if key in t.marked then 1 else 0);
      WriteGrows(c, s, Settled(t1, key), m, fault);
      if !t.lost {
        NotPassed(h, base, s.cursor, target);
        assert t1 == t;
        SettledKeeps(c, h, base, s, t, key);
        WriteKeeps(c, h, base, s, Settled(t, key), m, fault);
      }
    } else if !t.lost {
      NotPassed(h, base, s.cursor, target);
    }
  }

  lemma PassedGrows(h: seq<Envelope>, base: nat, hi: nat, hi': nat, key: string)
    requires Passed(h, base, hi, key) && hi <= hi'
    ensures Passed(h, base, hi', key)
  {
    var i :| base <= i < hi && i < |h| && HasPrefix(key, h[i].id + [NUL]);
  }

  /** Forgetting the marks of the event just passed. */
  lemma ForgetKeeps(h: seq<Envelope>, base: nat, s: State, s': State, t: Trace)
    requires MarksOk(h, base, s, t) && base <= s.cursor < |h|
    requires s'.entries == Without(s.entries, h[s.cursor].id) && s'.cursor == s.cursor + 1
    ensures MarksOk(h, base, s', t)
  {
    forall k | k in t.marked
      ensures k in s'.entries || Passed(h, base, s'.cursor, k)
    {
      if k in s.entries {
        assert HasPrefix(k, h[s.cursor].id + [NUL]) || k in s'.entries;
      } else {
        PassedGrows(h, base, s.cursor, s'.cursor, k);
      }
    }
  }

  /** A rewritten file holds exactly the entries in memory, whatever the old one held. */
  lemma RewriteKeeps(c: Coding<Mark>, h: seq<Envelope>, base: nat, s: State, t: Trace, order: seq<string>)
    requires Lawful(c) && MarksOk(h, base, s, t) && Enumerates(order, s.entries) && AllSoundKeys(c, s.entries)
    requires s.log == LogBytes(c, MarksOf(s.entries, order))
    ensures LedgerOk(c, h, base, s, Rewritten(t, MarksOf(s.entries, order)))
  {
    var ms := MarksOf(s.entries, order);
    RewriteExact(c, s.entries, order);
    assert ms[..|ms|] == ms;
  }

  /** The clean-up behind a passed event. */
  lemma CompleteKeeps(c: Coding<Mark>, h: seq<Envelope>, base: nat, s: State, t: Trace, order: seq<string>, rewrite: RewriteFault)
    requires LedgerOk(c, h, base, s, t) && base <= s.cursor < |h|
    requires Enumerates(order, Without(s.entries, h[s.cursor].id))
    ensures LedgerOk(c, h, base, PassEvent(c, s, h[s.cursor].(sequence := s.cursor + 1), CursorWritten, order, rewrite).0,
                     PassTrace(s, h[s.cursor], CursorWritten, order, rewrite, t))
  {
    var s' := PassEvent(c, s, h[s.cursor].(sequence := s.cursor + 1), CursorWritten, order, rewrite).0;
    ForgetKeeps(h, base, s, s', t);
    if s'.entries != s.entries && !(rewrite.failed && !rewrite.replaced) {
      RewriteKeeps(c, h, base, s', t, order);
    }
  }

  /** Passing an event whose targets are all done. */
  lemma PassKeeps(c: Coding<Mark>, rules: Rules, h: seq<Envelope>, base: nat, s: State, t: Trace,
                  fault: CursorFault, order: seq<string>, rewrite: RewriteFault)
    requires Identified(c, rules, h) && Inv(c, rules, h, base, s, t)
    requires base <= s.cursor < |h| && Enabled(rules, s, h[s.cursor], Pass(fault, order, rewrite))
    ensures var e := h[s.cursor];
            Inv(c, rules, h, base, PassEvent(c, s, e, fault, order, rewrite).0, PassTrace(s, e, fault, order, rewrite, t))
  {
    if !t.lost {
      CoveredNext(rules, h, base, s, t);
      if fault.CursorWritten? {
        assert h[s.cursor].(sequence := s.cursor + 1) == h[s.cursor];
        CompleteKeeps(c, h, base, s, t, order, rewrite);
      }
    }
  }

  lemma CoveredNext(rules: Rules, h: seq<Envelope>, base: nat, s: State, t: Trace)
    requires s.cursor < |h| && AllDone(rules, s, h[s.cursor]) && s.entries.Keys <= t.marked
    requires Covered(rules, h, base, Reached(s, base), t.marked) && s.cursor <= Reached(s, base)
    ensures Covered(rules, h, base, s.cursor + 1, t.marked)
  {
  }

  /** A crash keeps the durable marks and any prefix of the rest of the file; opening loads what is left. */
  function Restart(c: Coding<Mark>, s: State, cut: nat, base: nat): State
    requires cut <= |s.log|
  {
    var (entries, log) := Open(c, s.log[..cut]);
    State(entries, log, s.cursorFile, Reached(s, base))
  }

  ghost function RestartTrace(c: Coding<Mark>, s: State, t: Trace, cut: nat, s': State): Trace
    requires cut <= |s.log|
  {
    if t.lost then t
    else if t.exposed then t.(lost := true)
    else
      var found := Scan(c, Admit, (), s.log[..cut]);
      t.(marks := found, durable := |found|, torn := None, marked := t.marked + s'.entries.Keys)
  }

  /** Opening any crash image of the file brings back the durable marks and perhaps some that were not. */
  lemma OpenCut(c: Coding<Mark>, log: seq<Byte>, t: Trace, cut: nat) returns (j: nat)
    requires FileOk(c, log, t) && |LogBytes(c, t.marks[..t.durable])| <= cut <= |log|
    ensures t.durable <= j <= |t.marks|
    ensures Scan(c, Admit, (), log[..cut]) == t.marks[..j]
    ensures Open(c, log[..cut]) == (Entries(t.marks[..j]), LogBytes(c, t.marks[..j]))
  {
    var b := LogBytes(c, t.marks);
    if cut >= |b| {
      j := |t.marks|;
      assert t.marks[..j] == t.marks;
      assert log[..cut] == b + Tail(c, t)[..cut - |b|];
      OpenTorn(c, log[..cut], t.marks, t, cut - |b|);
    } else {
      assert log[..cut] == b[..cut];
      j := OpenInside(c, log[..cut], t.marks, t.durable, cut);
    }
  }

  lemma OpenPart(c: Coding<Mark>, image: seq<Byte>, marks: seq<Mark>, next: Mark, part: seq<Byte>)
    requires Lawful(c) && AllSound(c, marks) && Sound(c, next) && image == LogBytes(c, marks) + part
    requires Prefix(part, Record(c, next)) && |part| < |Record(c, next)|
    ensures Scan(c, Admit, (), image) == marks
    ensures Open(c, image) == (Entries(marks), LogBytes(c, marks))
  {
    ParsePartial(c, next, part);
    OpenExact(c, marks, part);
  }

  lemma OpenTorn(c: Coding<Mark>, image: seq<Byte>, marks: seq<Mark>, t: Trace, n: nat)
    requires Lawful(c) && AllSound(c, marks) && n <= |Tail(c, t)|
    requires image == LogBytes(c, marks) + Tail(c, t)[..n]
    requires t.torn.Some? ==> Sound(c, t.torn.value.0) && 0 < t.torn.value.1 < |Record(c, t.torn.value.0)|
    ensures Scan(c, Admit, (), image) == marks
    ensures Open(c, image) == (Entries(marks), LogBytes(c, marks))
  {
    if t.torn.Some? {
      OpenPart(c, image, marks, t.torn.value.0, Tail(c, t)[..n]);
    } else {
      OpenExact(c, marks, []);
    }
  }

  lemma OpenInside(c: Coding<Mark>, image: seq<Byte>, marks: seq<Mark>, durable: nat, cut: nat) returns (j: nat)
    requires Lawful(c) && AllSound(c, marks) && durable <= |marks|
    requires |LogBytes(c, marks[..durable])| <= cut < |LogBytes(c, marks)| && image == LogBytes(c, marks)[..cut]
    ensures durable <= j <= |marks|
    ensures Scan(c, Admit, (), image) == marks[..j]
    ensures Open(c, image) == (Entries(marks[..j]), LogBytes(c, marks[..j]))
  {
    j := CutPoint(c, marks, cut);
    var part := LogBytes(c, marks)[|LogBytes(c, marks[..j])|..cut];
    OpenPart(c, image, marks[..j], marks[j], part);
    if j < durable {
      LogBytesNext(c, marks, j);
      LogBytesMonotone(c, marks, j + 1, durable);
    }
  }

  lemma LogBytesNext(c: Coding<Mark>, ms: seq<Mark>, j: nat)
    requires j < |ms|
    ensures |LogBytes(c, ms[..j + 1])| == |LogBytes(c, ms[..j])| + |Record(c, ms[j])|
  {
    assert ms[..j + 1] == ms[..j] + [ms[j]];
    LogBytesAppend(c, ms[..j], [ms[j]]);
    LogBytesOne(c, ms[j]);
  }

  lemma LogBytesMonotone(c: Coding<Mark>, ms: seq<Mark>, j: nat, k: nat)
    requires j <= k <= |ms|
    ensures |LogBytes(c, ms[..j])| <= |LogBytes(c, ms[..k])|
  {
    assert ms[..k] == ms[..j] + ms[j..k];
    LogBytesAppend(c, ms[..j], ms[j..k]);
  }

  lemma RestartMarks(c: Coding<Mark>, h: seq<Envelope>, base: nat, s: State, t: Trace, s': State, t': Trace, j: nat)
    requires MarksOk(h, base, s, t) && FileBacks(c, s, t) && t.durable <= j <= |t.marks|
    requires s'.entries == Entries(t.marks[..j]) && s.cursor <= s'.cursor
    requires t'.marks == t.marks[..j] && t'.durable == j && t'.marked == t.marked + s'.entries.Keys && t'.settled == t.settled
    ensures MarksOk(h, base, s', t') && Backed(s', t') && AllSoundKeys(c, s'.entries)
    ensures s.entries.Keys <= s'.entries.Keys
  {
    EntriesSplit(c, t.marks[..j]);
    EntriesGrow(t.marks, t.durable, j);
    EntriesGrow(t.marks, j, |t.marks|);
    assert t.marks[..|t.marks|] == t.marks && t.marks[..j][..j] == t.marks[..j];
    forall k | k in t'.marked
      ensures k in s'.entries || Passed(h, base, s'.cursor, k)
    {
      if k !in s'.entries {
        PassedGrows(h, base, s.cursor, s'.cursor, k);
      }
    }
  }

  /** A crash and a restart keep the invariant: no durable mark is lost, and none appears that was not settled. */
  lemma RestartKeeps(c: Coding<Mark>, rules: Rules, h: seq<Envelope>, base: nat, s: State, t: Trace, cut: nat)
    requires Inv(c, rules, h, base, s, t) && cut <= |s.log|
    requires !t.lost && !t.exposed ==> |LogBytes(c, t.marks[..t.durable])| <= cut
    ensures var s' := Restart(c, s, cut, base);
            var t' := RestartTrace(c, s, t, cut, s');
            && Inv(c, rules, h, base, s', t')
            && t'.lost == (t.lost || t.exposed) && t'.marked >= t.marked
  {
    if !t.lost && !t.exposed {
      var j := OpenCut(c, s.log, t, cut);
      var s' := Restart(c, s, cut, base);
      var t' := RestartTrace(c, s, t, cut, s');
      RestartMarks(c, h, base, s, t, s', t', j);
      assert LogBytes(c, t'.marks) + [] == s'.log;
    }
  }

  /** The history may grow underneath. */
  lemma Grows(c: Coding<Mark>, rules: Rules, h: seq<Envelope>, e: Envelope, base: nat, s: State, t: Trace)
    requires Inv(c, rules, h, base, s, t)
    ensures Inv(c, rules, h + [e], base, s, t)
  {
    if !t.lost {
      forall k | k in t.marked && Passed(h, base, s.cursor, k)
        ensures Passed(h + [e], base, s.cursor, k)
      {
        var i :| base <= i < s.cursor && i < |h| && HasPrefix(k, h[i].id + [NUL]);
        assert (h + [e])[i] == h[i];
      }
    }
  }

  // ---- Main results ----

  lemma StepKeeps(c: Coding<Mark>, rules: Rules, h: seq<Envelope>, base: nat, s: State, t: Trace, step: Step)
    requires Identified(c, rules, h) && Inv(c, rules, h, base, s, t)
    requires base <= s.cursor < |h| && Enabled(rules, s, h[s.cursor], step)
    ensures var (s', ok) := Apply(c, s, h[s.cursor], step);
            && Inv(c, rules, h, base, s', StepTrace(c, s, h[s.cursor], step, t))
            && s'.cursor == (if ok && step.Pass? then s.cursor + 1 else s.cursor)
            && Reached(s, base) <= Reached(s', base) <= Max(Reached(s, base), s.cursor + 1)
            && (ok && step.Pass? ==> Reached(s', base) == s.cursor + 1)
  {
    match step
    case Deliver(target, outcome, fault) => DeliverKeeps(c, rules, h, base, s, t, target, outcome, fault);
    case Pass(fault, order, rewrite) => PassKeeps(c, rules, h, base, s, t, fault, order, rewrite);
  }

  /** No step loses anything; only a crash can. */
  lemma StepLoses(c: Coding<Mark>, s: State, e: Envelope, step: Step, t: Trace)
    ensures StepTrace(c, s, e, step, t).lost == t.lost
  {
  }

  lemma StepSome(c: Coding<Mark>, rules: Rules, h: seq<Envelope>, base: nat, s: State, t: Trace, step: Step) returns (t': Trace)
    requires Identified(c, rules, h) && Inv(c, rules, h, base, s, t)
    requires base <= s.cursor < |h| && Enabled(rules, s, h[s.cursor], step)
    ensures var (s', ok) := Apply(c, s, h[s.cursor], step);
            Inv(c, rules, h, base, s', t') && s'.cursor == (if ok && step.Pass? then s.cursor + 1 else s.cursor)
    ensures t'.lost == t.lost
  {
    StepKeeps(c, rules, h, base, s, t, step);
    StepLoses(c, s, h[s.cursor], step, t);
    t' := StepTrace(c, s, h[s.cursor], step, t);
  }

  /** A whole call of Process on the next events, whatever happens in it, keeps the invariant. */
  lemma {:induction false} RunKeeps(c: Coding<Mark>, rules: Rules, h: seq<Envelope>, base: nat, s: State, t: Trace,
                                    events: seq<Envelope>, start: nat, k: nat, steps: seq<Step>, s': State, k': nat) returns (t': Trace)
    requires Identified(c, rules, h) && Inv(c, rules, h, base, s, t)
    requires base <= start && start + |events| <= |h| && events == h[start..start + |events|] && s.cursor == start + k
    requires Runs(c, rules, s, events, k, steps, s', k')
    ensures Inv(c, rules, h, base, s', t') && s'.cursor == start + k'
    ensures t'.lost == t.lost
    decreases |steps|
  {
    if steps == [] { return t; }
    var s1, k1 := RunsHead(c, rules, s, events, k, steps, s', k');
    var t1 := RunStep(c, rules, h, base, s, t, events, start, k, steps[0], s1, k1);
    t' := RunKeeps(c, rules, h, base, s1, t1, events, start, k1, steps[1..], s', k');
  }

  lemma RunStep(c: Coding<Mark>, rules: Rules, h: seq<Envelope>, base: nat, s: State, t: Trace,
                events: seq<Envelope>, start: nat, k: nat, step: Step, s1: State, k1: nat) returns (t1: Trace)
    requires Identified(c, rules, h) && Inv(c, rules, h, base, s, t)
    requires base <= start && start + |events| <= |h| && events == h[start..start + |events|] && s.cursor == start + k
    requires k < |events| && Enabled(rules, s, events[k], step) && s1 == Apply(c, s, events[k], step).0
    requires k1 == if Apply(c, s, events[k], step).1 && step.Pass? then k + 1 else k
    ensures Inv(c, rules, h, base, s1, t1) && s1.cursor == start + k1 && t1.lost == t.lost
  {
    assert events[k] == h[s.cursor];
    t1 := StepSome(c, rules, h, base, s, t, step);
  }

  lemma RunsHead(c: Coding<Mark>, rules: Rules, s: State, events: seq<Envelope>, k: nat, steps: seq<Step>, s': State, k': nat)
    returns (s1: State, k1: nat)
    requires Runs(c, rules, s, events, k, steps, s', k') && steps != []
    ensures k < |events| && Enabled(rules, s, events[k], steps[0])
    ensures s1 == Apply(c, s, events[k], steps[0]).0
    ensures k1 == if Apply(c, s, events[k], steps[0]).1 && steps[0].Pass? then k + 1 else k
    ensures Runs(c, rules, s1, events, k1, steps[1..], s', k')
  {
    s1 := Apply(c, s, events[k], steps[0]).0;
    k1 := if Apply(c, s, events[k], steps[0]).1 && steps[0].Pass? then k + 1 else k;
  }

  /** Whether a write leaves part of a record behind. */
  predicate Tears(c: Coding<Mark>, m: Mark, fault: WriteFault) {
    fault.ShortWrite? && 0 < fault.written < |Record(c, m)|
  }

  /** Something comes to stand behind a torn mark only through two failures of the file: a torn write, and no rewrite before the next write. */
  lemma OnlyTornWritesMatter(c: Coding<Mark>, s: State, e: Envelope, step: Step, t: Trace)
    requires !t.exposed && t.torn.None?
    requires step.Deliver? ==> !Tears(c, Mark(e.id, step.target, StatusOf(step.outcome)), step.fault)
    ensures var t' := StepTrace(c, s, e, step, t);
            !t'.exposed && t'.torn.None?
  {
  }

  /** A rewrite heals the file, whatever stands in it. */
  lemma RewriteHeals(c: Coding<Mark>, s: State, e: Envelope, order: seq<string>, rewrite: RewriteFault, t: Trace)
    requires Without(s.entries, e.id) != s.entries && (!rewrite.failed || rewrite.replaced)
    ensures var t' := StepTrace(c, s, e, Pass(CursorWritten, order, rewrite), t);
            !t'.exposed && t'.torn.None?
  {
  }

  /**
   What the invariant says: behind the durable cursor every planned target of every event has
   been marked and had a final outcome, and no target was ever delivered to after being marked.
   The next delivery does not change that.
   */
  lemma DeliveredOnce(c: Coding<Mark>, rules: Rules, h: seq<Envelope>, base: nat, s: State, t: Trace, i: nat, target: string)
    requires Identified(c, rules, h) && Inv(c, rules, h, base, s, t) && !t.lost
    ensures t.late == 0
    ensures base <= i < Reached(s, base) && target in Targets(rules, h[i]) ==>
              Key(h[i].id, target) in t.marked && Key(h[i].id, target) in t.settled
    ensures base <= s.cursor < |h| && target in Targets(rules, h[s.cursor]) && Key(h[s.cursor].id, target) in t.marked ==>
              Key(h[s.cursor].id, target) in s.entries
  {
    if base <= s.cursor < |h| && target in Targets(rules, h[s.cursor]) && Key(h[s.cursor].id, target) in t.marked {
      NotPassed(h, base, s.cursor, target);
    }
  }

  lemma MarkFound(c: Coding<Mark>, log: seq<Byte>, m: Mark, t: Trace)
    requires FileOk(c, log, t) && Sound(c, m) && t.torn.None?
    ensures Key(m.event, m.target) in Open(c, log + Record(c, m)).0
  {
    AppendWhole(c, log, m, t);
    OpenExact(c, t.marks + [m], []);
    assert LogBytes(c, t.marks + [m]) + [] == log + Record(c, m);
    EntriesSnoc(t.marks, m);
  }

  lemma MarkNotFound(c: Coding<Mark>, log: seq<Byte>, m: Mark, t: Trace)
    requires FileOk(c, log, t) && !Parse(c, Tail(c, t) + Record(c, m)).Body?
    ensures Open(c, log + Record(c, m)).0 == Entries(t.marks)
  {
    OpenBehind(c, t.marks, Tail(c, t), Record(c, m), log);
  }

  lemma OpenBehind(c: Coding<Mark>, ms: seq<Mark>, tail: seq<Byte>, record: seq<Byte>, log: seq<Byte>)
    requires Lawful(c) && AllSound(c, ms) && log == LogBytes(c, ms) + tail && !Parse(c, tail + record).Body?
    ensures Open(c, log + record).0 == Entries(ms)
  {
    assert log + record == LogBytes(c, ms) + (tail + record);
    OpenExact(c, ms, tail + record);
  }

  /**
   A mark that was accepted and synced is found again by the next opening exactly when no torn write
   stood before it, as long as the checksum tells the two records run together from a whole one.
   */
  lemma MarkSurvivesExactly(c: Coding<Mark>, entries: map<string, Status>, log: seq<Byte>, m: Mark, t: Trace)
    requires FileOk(c, log, t) && Sound(c, m) && Key(m.event, m.target) !in Entries(t.marks)
    requires t.torn.Some? ==> !Parse(c, Tail(c, t) + Record(c, m)).Body?
    ensures var (entries', log', ok) := Write(c, entries, log, m, NoFault);
            && ok && Key(m.event, m.target) in entries'
            && (Key(m.event, m.target) in Open(c, log').0 <==> t.torn.None?)
  {
    if t.torn.None? {
      MarkFound(c, log, m, t);
    } else {
      MarkNotFound(c, log, m, t);
    }
  }

  /** The record torn off by a failed write, run together with its own repetition, does not read as a record. */
  predicate Garbles(c: Coding<Mark>, m: Mark, n: nat) {
    0 < n < |Record(c, m)| && ((n <= 3 && |c.marshal(m)| < 256) || !Parse(c, Record(c, m)[..n] + Record(c, m)).Body?)
  }

  lemma GarbledUnread(c: Coding<Mark>, m: Mark, n: nat)
    requires Garbles(c, m, n)
    ensures !Parse(c, Record(c, m)[..n] + Record(c, m)).Body?
  {
    if n <= 3 && |c.marshal(m)| < 256 {
      RepeatedMarkUnread(c, m, n);
    }
  }

  lemma LostOnRestart(c: Coding<Mark>, ms: seq<Mark>, tail: seq<Byte>, s: State, base: nat)
    requires Lawful(c) && AllSound(c, ms) && !Parse(c, tail).Body? && s.log == LogBytes(c, ms) + tail
    ensures Restart(c, s, |s.log|, base).entries == Entries(ms)
  {
    OpenExact(c, ms, tail);
    assert s.log[..|s.log|] == s.log;
  }

  /** The states of the ledger in the run below. */
  lemma TornAndRepeated(c: Coding<Mark>, s: State, e: Envelope, target: string, n: nat, ms: seq<Mark>, base: nat)
    requires Lawful(c) && AllSound(c, ms) && s.log == LogBytes(c, ms) && s.cursor == Reached(s, base)
    requires var m := Mark(e.id, target, Succeeded); Sound(c, m) && Garbles(c, m, n)
    requires Key(e.id, target) !in s.entries && Key(e.id, target) !in Entries(ms)
    ensures var (s1, ok1) := DeliverTo(c, s, e, target, Delivered, ShortWrite(n));
            var (s2, ok2) := DeliverTo(c, s1, e, target, Delivered, NoFault);
            var s3 := Restart(c, s2, |s2.log|, base);
            && !ok1 && s1.entries == s.entries && ok2 && Key(e.id, target) in s2.entries
            && Key(e.id, target) !in s3.entries && s3.cursor == s.cursor
  {
    var m := Mark(e.id, target, Succeeded);
    var tail := Record(c, m)[..n] + Record(c, m);
    var s2 := s.(entries := s.entries[Key(e.id, target) := Succeeded], log := s.log + Record(c, m)[..n] + Record(c, m));
    TornThenWhole(c, s, e, target, n, s2);
    assert s2.log == LogBytes(c, ms) + tail;
    GarbledUnread(c, m, n);
    LostOnRestart(c, ms, tail, s2, base);
  }

  lemma TornThenWhole(c: Coding<Mark>, s: State, e: Envelope, target: string, n: nat, s2: State)
    requires Key(e.id, target) !in s.entries && n < |Record(c, Mark(e.id, target, Succeeded))|
    requires var record := Record(c, Mark(e.id, target, Succeeded));
             s2 == s.(entries := s.entries[Key(e.id, target) := Succeeded], log := s.log + record[..n] + record)
    ensures var (s1, ok1) := DeliverTo(c, s, e, target, Delivered, ShortWrite(n));
            !ok1 && s1.entries == s.entries && DeliverTo(c, s1, e, target, Delivered, NoFault) == (s2, true)
  {
  }

  /**
   The assumption is needed. The mark of a delivery is torn off, the delivery is repeated and marked
   behind the remains, the process restarts: the target, marked and synced, is delivered to again.
   */
  lemma NotifiedTwice(c: Coding<Mark>, rules: Rules, h: seq<Envelope>, base: nat, s: State, t: Trace, target: string, n: nat)
    requires Identified(c, rules, h) && Inv(c, rules, h, base, s, t) && !t.lost && !t.exposed && t.torn.None?
    requires base <= s.cursor < |h| && s.cursor == Reached(s, base) && target in Targets(rules, h[s.cursor])
    requires Key(h[s.cursor].id, target) !in s.entries && Key(h[s.cursor].id, target) !in Entries(t.marks)
    requires Garbles(c, Mark(h[s.cursor].id, target, Succeeded), n)
    ensures var e := h[s.cursor];
            var torn, whole := Deliver(target, Delivered, ShortWrite(n)), Deliver(target, Delivered, NoFault);
            var (s1, t1) := (Apply(c, s, e, torn).0, StepTrace(c, s, e, torn, t));
            var (s2, t2) := (Apply(c, s1, e, whole).0, StepTrace(c, s1, e, whole, t1));
            var s3 := Restart(c, s2, |s2.log|, base);
            var t3 := RestartTrace(c, s2, t2, |s2.log|, s3);
            && Enabled(rules, s, e, torn) && Enabled(rules, s1, e, whole) && Enabled(rules, s3, e, whole)
            && Apply(c, s1, e, whole).1 && Key(e.id, target) in s2.entries && Key(e.id, target) in t2.marked && t2.exposed
            && s3.cursor == s.cursor && StepTrace(c, s3, e, whole, t3).late == 1
  {
    var e := h[s.cursor];
    NotPassed(h, base, s.cursor, target);
    assert s.log == LogBytes(c, t.marks);
    TornAndRepeated(c, s, e, target, n, t.marks, base);
  }
}
