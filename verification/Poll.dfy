/**
 One round of the Agent's poll loop over the stores and processors themselves: accept the batch
 durably, run every processor until it has nothing left, check the cursors, and only then hand
 out the sequence to acknowledge.
 */
module Poll {
  import opened Basics
  import opened RecordLog
  import opened Envelopes
  import Inbox
  import InboxSafety
  import InboxAnswers
  import Stats
  import Ledger
  import Webhook
  import WebhookSafety

  const BATCH := 100

  // ---- Whole batches ----

  /** The healthy inbox is at or beyond position k of a stretch of n events of the history. */
  ghost predicate At(c: Coding<Envelope>, h: seq<Envelope>, m: Inbox.Mem, d: Inbox.Disk, base: nat, start: nat, k: nat, n: nat) {
    match m
    case Mem(_, _, _, _, true) => false
    case Mem(last, baseline, _, _, false) =>
      InboxSafety.Inv(c, h, m, d) && baseline == base <= start && k <= n && start + n <= |h| && start + k <= last
  }

  /** How accepting the stretch may end: at its end, or for want of space or after a failure. */
  ghost predicate Ended(c: Coding<Envelope>, h: seq<Envelope>, r: (Inbox.Mem, Inbox.Disk, Inbox.Outcome), base: nat, start: nat, n: nat, lo: nat) {
    match r.2
    case Accepted => At(c, h, r.0, r.1, base, start, n, n) && lo <= r.0.last
    case _ => InboxSafety.Inv(c, h, r.0, r.1) && r.0.baseline == base && lo <= r.0.last && (r.2 == Inbox.Full || r.2 == Inbox.Failed)
  }

  lemma AcceptNextKeeps(c: Coding<Envelope>, max: nat, h: seq<Envelope>, m: Inbox.Mem, d: Inbox.Disk, e: Envelope, base: nat, start: nat, k: nat, n: nat,
                        fault: WriteFault, r: (Inbox.Mem, Inbox.Disk, Inbox.Outcome))
    requires At(c, h, m, d, base, start, k, n) && k < n && (start + k < |h| ==> e == h[start + k]) && r == Inbox.AcceptOne(c, max, m, d, e, fault)
    ensures match r.2
            case Accepted => At(c, h, r.0, r.1, base, start, k + 1, n) && m.last <= r.0.last
            case _ => Ended(c, h, r, base, start, n, m.last)
  {
    InboxSafety.AcceptOneKeeps(c, max, h, m, d, start + k, fault);
  }

  lemma {:induction false} AcceptRestKeeps(c: Coding<Envelope>, max: nat, h: seq<Envelope>, m: Inbox.Mem, d: Inbox.Disk, events: seq<Envelope>,
                                           base: nat, start: nat, k: nat, at: int, fault: WriteFault,
                                           r: (Inbox.Mem, Inbox.Disk, Inbox.Outcome), lo: nat)
    requires At(c, h, m, d, base, start, k, |events|) && k <= |events| && lo <= m.last
    requires forall i :: 0 <= i < |events| && start + i < |h| ==> events[i] == h[start + i]
    requires r == Inbox.AcceptFrom(c, max, m, d, events, k, at, fault)
    ensures Ended(c, h, r, base, start, |events|, lo)
    decreases |events| - k
  {
    if k < |events| {
      var first := Inbox.AcceptOne(c, max, m, d, events[k], if at == k then fault else NoFault);
      AcceptNextKeeps(c, max, h, m, d, events[k], base, start, k, |events|, if at == k then fault else NoFault, first);
      if first.2.Accepted? {
        AcceptRestKeeps(c, max, h, first.0, first.1, events, base, start, k + 1, at, fault, r, lo);
      }
    }
  }

  lemma AcceptFromKeeps(c: Coding<Envelope>, max: nat, h: seq<Envelope>, m: Inbox.Mem, d: Inbox.Disk, events: seq<Envelope>, start: nat,
                        at: int, fault: WriteFault, m': Inbox.Mem, d': Inbox.Disk, o: Inbox.Outcome)
    requires InboxSafety.Inv(c, h, m, d) && !m.failed
    requires start + |events| <= |h| && events == h[start..start + |events|] && m.baseline <= start <= m.last
    requires Inbox.AcceptFrom(c, max, m, d, events, 0, at, fault) == (m', d', o)
    ensures InboxSafety.Inv(c, h, m', d') && m'.baseline == m.baseline && m'.last >= m.last
    ensures o == Inbox.Accepted || o == Inbox.Full || o == Inbox.Failed
    ensures o.Accepted? ==> !m'.failed && m'.last >= start + |events|
  {
    AcceptRestKeeps(c, max, h, m, d, events, m.baseline, start, 0, at, fault, (m', d', o), m.last);
  }

  lemma {:induction false} HandleFromKeeps(rules: Stats.Rules, h: seq<Envelope>, base: nat, s: Stats.State,
                                           events: seq<Envelope>, start: nat, k: nat, at: int, fault: Stats.Fault)
    requires DistinctIds(h) && Stats.Inv(rules, h, base, s) && base <= start && k <= |events|
    requires forall i :: 0 <= i < |h| ==> h[i].id != "" && h[i].sequence == i + 1
    requires start + |events| <= |h| && events == h[start..start + |events|] && s.cursor == start + k
    ensures var (s', n, ok) := Stats.HandleFrom(rules, s, events, k, at, fault);
            Stats.Inv(rules, h, base, s') && s'.cursor == start + n && k <= n <= |events| && (ok ==> n == |events|)
    decreases |events| - k
  {
    if k < |events| {
      assert events[k] == h[s.cursor];
      var f := if at == k then fault else Stats.NoFault;
      Stats.HandleKeeps(rules, h, base, s, f);
      var (s1, ok) := Stats.Handle(rules, s, events[k], f);
      if ok {
        HandleFromKeeps(rules, h, base, s1, events, start, k + 1, at, fault);
      }
    }
  }

  /** What a processor reads: the history behind its cursor, and nothing only at the end of the inbox. */
  lemma ReadsAhead(c: Coding<Envelope>, h: seq<Envelope>, m: Inbox.Mem, d: Inbox.Disk, cursor: nat)
    requires InboxSafety.Inv(c, h, m, d) && !m.failed
    ensures match Inbox.ReadAfter(c, m, d, cursor, BATCH)
            case None => Outside(m, cursor)
            case Some(events) =>
              && m.baseline <= cursor && cursor + |events| <= m.last <= |h| && (events == [] <==> cursor == m.last)
              && events == h[cursor..cursor + |events|]
              && forall i :: 0 <= i < |events| ==> events[i].sequence == cursor + i + 1
  {
    InboxSafety.ReadAfterExact(c, h, m, d, cursor, BATCH);
  }

  // ---- The processors' loops ----

  /** Facts about the history that the processors rely on. */
  ghost predicate Sane(c: Coding<Ledger.Mark>, rules: Webhook.Rules, h: seq<Envelope>) {
    match rules
    case Rules(_, _) =>
      WebhookSafety.Identified(c, rules, h) && DistinctIds(h) && forall i :: 0 <= i < |h| ==> h[i].id != "" && h[i].sequence == i + 1
  }

  /** A processor that stands outside the inbox cannot read. */
  predicate Outside(m: Inbox.Mem, cursor: nat) {
    cursor < m.baseline || cursor > m.last
  }

  /** A successful call leaves the cursor in the inbox: further on, or at its end when nothing was handled. */
  predicate Advanced(m: Inbox.Mem, before: nat, now: nat, processed: nat) {
    !Outside(m, now) && if processed == 0 then before == now == m.last else before < now
  }

  /** What the world may hold against the statistics processor: a failure, or a match that does not decode. */
  ghost predicate StatsHindered(rules: Stats.Rules, h: seq<Envelope>, base: nat, world: nat -> (int, Stats.Fault)) {
    || (exists n: nat :: !world(n).1.NoFault?)
    || (exists i :: base <= i < |h| && rules.isMatch(h[i]) && !rules.decodes(h[i]))
  }

  lemma StatsKeeps(c: Coding<Envelope>, rules: Stats.Rules, h: seq<Envelope>, m: Inbox.Mem, d: Inbox.Disk, s: Stats.State, s': Stats.State,
                   at: int, fault: Stats.Fault, processed: nat, ok: bool)
    requires InboxSafety.Inv(c, h, m, d) && !m.failed && Stats.Inv(rules, h, m.baseline, s) && DistinctIds(h)
    requires forall i :: 0 <= i < |h| ==> h[i].id != "" && h[i].sequence == i + 1
    requires Called(c, rules, m, d, s, s', at, fault, processed, ok)
    ensures Stats.Inv(rules, h, m.baseline, s')
  {
    ReadsAhead(c, h, m, d, s.cursor);
    match Inbox.ReadAfter(c, m, d, s.cursor, BATCH)
    case None =>
    case Some(events) => HandleFromKeeps(rules, h, m.baseline, s, events, s.cursor, 0, at, fault);
  }

  /** What one call of the statistics processor does, as its contract has it. */
  ghost predicate Called(c: Coding<Envelope>, rules: Stats.Rules, m: Inbox.Mem, d: Inbox.Disk, s: Stats.State, s': Stats.State,
                         at: int, fault: Stats.Fault, processed: nat, ok: bool)
  {
    match Inbox.ReadAfter(c, m, d, s.cursor, BATCH)
    case None => processed == 0 && !ok && s' == s
    case Some(events) => (s', processed, ok) == Stats.HandleFrom(rules, s, events, 0, at, fault)
  }

  /** What a call answers. */
  ghost predicate Answered(rules: Stats.Rules, read: Option<seq<Envelope>>, s: Stats.State, s': Stats.State,
                           at: int, fault: Stats.Fault, processed: nat, ok: bool)
  {
    match read
    case None => !ok
    case Some(events) =>
      && processed <= |events| && (ok <==> processed == |events|)
      && (!ok ==> Stats.Stuck(rules, events[processed], if at == processed then fault else Stats.NoFault))
      && s'.cursor == (if processed == 0 then s.cursor else events[processed - 1].sequence)
  }

  lemma CallAnswers(c: Coding<Envelope>, rules: Stats.Rules, m: Inbox.Mem, d: Inbox.Disk, s: Stats.State, s': Stats.State,
                    at: int, fault: Stats.Fault, processed: nat, ok: bool)
    requires Called(c, rules, m, d, s, s', at, fault, processed, ok)
    ensures Answered(rules, Inbox.ReadAfter(c, m, d, s.cursor, BATCH), s, s', at, fault, processed, ok)
  {
    match Inbox.ReadAfter(c, m, d, s.cursor, BATCH)
    case None =>
    case Some(events) => Stats.HandleFromAnswers(rules, s, events, 0, at, fault);
  }

  /** A call moves on unless there is nothing left to read, and fails only for a cause. */
  lemma StatsMoves(c: Coding<Envelope>, rules: Stats.Rules, h: seq<Envelope>, m: Inbox.Mem, d: Inbox.Disk, s: Stats.State, s': Stats.State,
                   world: nat -> (int, Stats.Fault), round: nat, processed: nat, ok: bool)
    requires InboxSafety.Inv(c, h, m, d) && !m.failed
    requires Answered(rules, Inbox.ReadAfter(c, m, d, s.cursor, BATCH), s, s', world(round).0, world(round).1, processed, ok)
    ensures ok ==> Advanced(m, s.cursor, s'.cursor, processed)
    ensures !ok ==> Outside(m, s.cursor) || StatsHindered(rules, h, m.baseline, world)
  {
    hide InboxSafety.Inv, Inbox.ReadAfter;
    ReadsAhead(c, h, m, d, s.cursor);
    match Inbox.ReadAfter(c, m, d, s.cursor, BATCH)
    case None =>
    case Some(events) =>
      if !ok {
        assert events[processed] == h[s.cursor + processed];
      }
  }

  /** Runs the statistics processor until a call handles nothing, which leaves it at the end of the inbox, or fails. */
  method RunStats(p: Stats.Processor, ghost h: seq<Envelope>, ghost base: nat, world: nat -> (int, Stats.Fault)) returns (ok: bool)
    requires InboxSafety.Inv(p.inbox.coding, h, p.inbox.View(), p.inbox.disk) && !p.inbox.failed && p.inbox.baseline == base
    requires Stats.Inv(p.rules, h, base, p.View()) && DistinctIds(h)
    requires forall i :: 0 <= i < |h| ==> h[i].id != "" && h[i].sequence == i + 1
    modifies p
    ensures Stats.Inv(p.rules, h, base, p.View())
    ensures ok ==> p.cursor == p.inbox.last
    ensures !ok ==> Outside(p.inbox.View(), old(p.cursor)) || StatsHindered(p.rules, h, base, world)
  {
    var round := 0;
    while true
      invariant Stats.Inv(p.rules, h, base, p.View())
      invariant p.cursor == old(p.cursor) || !Outside(p.inbox.View(), p.cursor)
      decreases p.inbox.last - p.cursor
    {
      var (at, fault) := world(round);
      ghost var before := p.View();
      var processed, success := p.Process(BATCH, at, fault);
      StatsKeeps(p.inbox.coding, p.rules, h, p.inbox.View(), p.inbox.disk, before, p.View(), at, fault, processed, success);
      CallAnswers(p.inbox.coding, p.rules, p.inbox.View(), p.inbox.disk, before, p.View(), at, fault, processed, success);
      StatsMoves(p.inbox.coding, p.rules, h, p.inbox.View(), p.inbox.disk, before, p.View(), world, round, processed, success);
      if !success { return false; }
      if processed == 0 { return true; }
      round := round + 1;
    }
  }

  /** What the world may hold against the webhook processor: an event that does not convert, a target to be retried, a write that fails. */
  ghost predicate WebhookHindered(rules: Webhook.Rules, h: seq<Envelope>, base: nat, world: (nat, nat, nat) -> (Webhook.Outcome, WriteFault),
                                  passing: (nat, nat) -> (Webhook.CursorFault, Ledger.RewriteFault))
  {
    || (exists i :: base <= i < |h| && rules.convert(h[i]).Broken?)
    || (exists n: nat, k: nat, j: nat :: world(n, k, j).0.RetryableFailure? || !world(n, k, j).1.NoFault?)
    || (exists n: nat, k: nat :: passing(n, k).0.CursorFailed?)
  }

  lemma WebhookKeeps(c: Coding<Envelope>, lc: Coding<Ledger.Mark>, rules: Webhook.Rules, h: seq<Envelope>, m: Inbox.Mem, d: Inbox.Disk,
                     s: Webhook.State, t: WebhookSafety.Trace, steps: seq<Webhook.Step>, s': Webhook.State, processed: nat)
    returns (t': WebhookSafety.Trace)
    requires InboxSafety.Inv(c, h, m, d) && !m.failed
    requires WebhookSafety.Identified(lc, rules, h) && WebhookSafety.Inv(lc, rules, h, m.baseline, s, t)
    requires Webhook.Processed(lc, rules, s, Inbox.ReadAfter(c, m, d, s.cursor, BATCH), steps, s', processed)
    ensures WebhookSafety.Inv(lc, rules, h, m.baseline, s', t') && t'.lost == t.lost
  {
    hide WebhookSafety.Inv, InboxSafety.Inv, Inbox.ReadAfter, WebhookSafety.Identified, Webhook.Runs;
    ReadsAhead(c, h, m, d, s.cursor);
    match Inbox.ReadAfter(c, m, d, s.cursor, BATCH)
    case None => t' := t;
    case Some(events) =>
      t' := WebhookSafety.RunKeeps(lc, rules, h, m.baseline, s, t, events, s.cursor, 0, steps, s', processed);
  }

  /** A call of the webhook processor moves on unless there is nothing left to read, and fails only for a cause. */
  lemma WebhookMoves(c: Coding<Envelope>, lc: Coding<Ledger.Mark>, rules: Webhook.Rules, h: seq<Envelope>, m: Inbox.Mem, d: Inbox.Disk,
                     s: Webhook.State, steps: seq<Webhook.Step>, s': Webhook.State,
                     world: (nat, nat, nat) -> (Webhook.Outcome, WriteFault), passing: (nat, nat) -> (Webhook.CursorFault, Ledger.RewriteFault),
                     round: nat, processed: nat, ok: bool)
    requires InboxSafety.Inv(c, h, m, d) && !m.failed
    requires Webhook.Processed(lc, rules, s, Inbox.ReadAfter(c, m, d, s.cursor, BATCH), steps, s', processed)
    requires Webhook.Finished(rules, Inbox.ReadAfter(c, m, d, s.cursor, BATCH), processed, (k: nat, j: nat) => world(round, k, j),
                              (k: nat) => passing(round, k), ok)
    ensures ok ==> Advanced(m, s.cursor, s'.cursor, processed)
    ensures !ok ==> Outside(m, s.cursor) || WebhookHindered(rules, h, m.baseline, world, passing)
  {
    hide InboxSafety.Inv, Inbox.ReadAfter, Webhook.Runs, Webhook.Stuck, WebhookHindered;
    ReadsAhead(c, h, m, d, s.cursor);
    match Inbox.ReadAfter(c, m, d, s.cursor, BATCH)
    case None =>
    case Some(events) =>
      if !ok {
        StuckHinders(rules, h, m.baseline, s.cursor + processed, world, passing, round, processed);
      }
  }

  lemma StuckHinders(rules: Webhook.Rules, h: seq<Envelope>, base: nat, i: nat, world: (nat, nat, nat) -> (Webhook.Outcome, WriteFault),
                     passing: (nat, nat) -> (Webhook.CursorFault, Ledger.RewriteFault), round: nat, k: nat)
    requires base <= i < |h|
    requires Webhook.Stuck(rules, h[i], (j: nat) => ((k: nat, j: nat) => world(round, k, j))(k, j), ((k: nat) => passing(round, k))(k).0)
    ensures WebhookHindered(rules, h, base, world, passing)
  {
    var w := (j: nat) => ((k: nat, j: nat) => world(round, k, j))(k, j);
    if Webhook.AnyHindered(w, |Webhook.Targets(rules, h[i])|) {
      var j :| 0 <= j < |Webhook.Targets(rules, h[i])| && Webhook.Hindered(w, j);
      assert world(round, k, j).0.RetryableFailure? || !world(round, k, j).1.NoFault?;
    }
  }

  /** Runs the webhook processor until a call handles nothing or fails; `t` carries the auxiliary history of its ledger. */
  method RunWebhook(p: Webhook.Processor, ghost h: seq<Envelope>, ghost base: nat, ghost t: WebhookSafety.Trace,
                    world: (nat, nat, nat) -> (Webhook.Outcome, WriteFault),
                    passing: (nat, nat) -> (Webhook.CursorFault, Ledger.RewriteFault)) returns (ok: bool, ghost t': WebhookSafety.Trace)
    requires InboxSafety.Inv(p.inbox.coding, h, p.inbox.View(), p.inbox.disk) && !p.inbox.failed && p.inbox.baseline == base
    requires WebhookSafety.Inv(p.ledger.coding, p.rules, h, base, p.View(), t) && WebhookSafety.Identified(p.ledger.coding, p.rules, h)
    modifies p, p.ledger
    ensures WebhookSafety.Inv(p.ledger.coding, p.rules, h, base, p.View(), t') && t'.lost == t.lost
    ensures ok ==> p.cursor == p.inbox.last
    ensures !ok ==> Outside(p.inbox.View(), old(p.cursor)) || WebhookHindered(p.rules, h, base, world, passing)
  {
    var round := 0;
    t' := t;
    while true
      invariant WebhookSafety.Inv(p.ledger.coding, p.rules, h, base, p.View(), t') && t'.lost == t.lost
      invariant p.cursor == old(p.cursor) || !Outside(p.inbox.View(), p.cursor)
      decreases p.inbox.last - p.cursor
    {
      ghost var before := p.View();
      var n := round;
      var processed, success, steps := p.Process(BATCH, (k: nat, j: nat) => world(n, k, j), (k: nat) => passing(n, k));
      t' := WebhookKeeps(p.inbox.coding, p.ledger.coding, p.rules, h, p.inbox.View(), p.inbox.disk, before, t', steps, p.View(), processed);
      WebhookMoves(p.inbox.coding, p.ledger.coding, p.rules, h, p.inbox.View(), p.inbox.disk, before, steps, p.View(),
                   world, passing, n, processed, success);
      if !success { return false, t'; }
      if processed == 0 { return true, t'; }
      round := round + 1;
    }
  }

  // ---- The round ----

  /** The whole Agent is in order with respect to the history. */
  ghost predicate InOrder(h: seq<Envelope>, base: nat, inbox: Inbox.Store, stats: Stats.Processor, webhook: Webhook.Processor, t: WebhookSafety.Trace)
    reads inbox, stats, webhook, webhook.ledger
  {
    && stats.inbox == inbox && webhook.inbox == inbox && inbox.baseline == base
    && InboxSafety.Inv(inbox.coding, h, inbox.View(), inbox.disk)
    && Stats.Inv(stats.rules, h, base, stats.View())
    && WebhookSafety.Inv(webhook.ledger.coding, webhook.rules, h, base, webhook.View(), t)
  }

  /** There is space for the batch, and writing it does not fail. */
  ghost predicate Unhindered(c: Coding<Envelope>, max: nat, h: seq<Envelope>, m: Inbox.Mem, d: Inbox.Disk, acked: nat, n: nat, at: int, fault: WriteFault) {
    InboxAnswers.Taking(c, max, h, m, d, acked, 0, n) && (0 <= at < n ==> fault.NoFault?)
  }

  /** Runs every processor to the end of the inbox; fails only when one of them stands outside it or is hindered. */
  method RunAll(stats: Stats.Processor, webhook: Webhook.Processor, ghost h: seq<Envelope>, ghost base: nat, ghost t: WebhookSafety.Trace,
                statsWorld: nat -> (int, Stats.Fault), world: (nat, nat, nat) -> (Webhook.Outcome, WriteFault),
                passing: (nat, nat) -> (Webhook.CursorFault, Ledger.RewriteFault))
    returns (ok: bool, ghost t': WebhookSafety.Trace)
    requires InOrder(h, base, stats.inbox, stats, webhook, t) && Sane(webhook.ledger.coding, webhook.rules, h) && !stats.inbox.failed
    modifies stats, webhook, webhook.ledger
    ensures InOrder(h, base, stats.inbox, stats, webhook, t')
    ensures ok ==> stats.cursor == webhook.cursor == stats.inbox.last
    ensures !ok ==> || Outside(stats.inbox.View(), old(stats.cursor)) || StatsHindered(stats.rules, h, base, statsWorld)
                    || Outside(stats.inbox.View(), old(webhook.cursor)) || WebhookHindered(webhook.rules, h, base, world, passing)
  {
    ok, t' := RunWebhook(webhook, h, base, t, world, passing);
    if !ok { return; }
    ok := RunStats(stats, h, base, statsWorld);
  }

  /** Accepts a batch unless it is empty, and checks that it is durable. */
  method TakeIn(inbox: Inbox.Store, events: seq<Envelope>, ghost h: seq<Envelope>, ghost acked: nat, at: int, fault: WriteFault) returns (ok: bool)
    requires InboxSafety.Inv(inbox.coding, h, inbox.View(), inbox.disk)
    requires acked + |events| <= |h| && events == h[acked..acked + |events|] && inbox.baseline <= acked <= inbox.last
    requires events == [] ==> !inbox.failed
    modifies inbox
    ensures InboxSafety.Inv(inbox.coding, h, inbox.View(), inbox.disk) && inbox.baseline == old(inbox.baseline)
    ensures ok ==> !inbox.failed && acked + |events| <= inbox.last
    ensures Unhindered(inbox.coding, inbox.max, h, old(inbox.View()), old(inbox.disk), acked, |events|, at, fault) ==> ok
    ensures inbox.last >= old(inbox.last)
  {
    if |events| == 0 { return true; }
    ghost var before, disk := inbox.View(), inbox.disk;
    var durable, o := inbox.AcceptBatch(events, at, fault);
    if !before.failed {
      AcceptFromKeeps(inbox.coding, inbox.max, h, before, disk, events, acked, at, fault, inbox.View(), inbox.disk, o);
    }
    if Unhindered(inbox.coding, inbox.max, h, before, disk, acked, |events|, at, fault) {
      InboxAnswers.BatchAccepted(inbox.coding, inbox.max, h, before, disk, events, acked, at, fault);
    }
    return o.Accepted? && durable >= events[|events| - 1].sequence;
  }

  /** With the batch in the inbox: runs the processors and hands out the batch's last sequence if they are all past it. */
  method ProcessBatch(inbox: Inbox.Store, stats: Stats.Processor, webhook: Webhook.Processor, events: seq<Envelope>,
                      ghost h: seq<Envelope>, ghost base: nat, ghost acked: nat, ghost t: WebhookSafety.Trace,
                      statsWorld: nat -> (int, Stats.Fault), world: (nat, nat, nat) -> (Webhook.Outcome, WriteFault),
                      passing: (nat, nat) -> (Webhook.CursorFault, Ledger.RewriteFault))
    returns (ack: Option<nat>, ghost t': WebhookSafety.Trace)
    requires InOrder(h, base, inbox, stats, webhook, t) && Sane(webhook.ledger.coding, webhook.rules, h) && !inbox.failed
    requires acked + |events| <= |h| && events == h[acked..acked + |events|] && acked + |events| <= inbox.last
    modifies stats, webhook, webhook.ledger
    ensures InOrder(h, base, inbox, stats, webhook, t')
    ensures ack.Some? ==> events != [] && ack.value == acked + |events|
                          && ack.value <= Stats.Reached(stats.View(), base) && ack.value <= WebhookSafety.Reached(webhook.View(), base)
    ensures ack.None? ==> || events == []
                          || Outside(inbox.View(), old(stats.cursor)) || StatsHindered(stats.rules, h, base, statsWorld)
                          || Outside(inbox.View(), old(webhook.cursor)) || WebhookHindered(webhook.rules, h, base, world, passing)
  {
    var ok;
    ok, t' := RunAll(stats, webhook, h, base, t, statsWorld, world, passing);
    if !ok { return None, t'; }
    if |events| == 0 { return None, t'; }
    var last := events[|events| - 1].sequence;
    LastNumbered(webhook.ledger.coding, webhook.rules, h, acked, events);
    if webhook.cursor < last || stats.cursor < last { return None, t'; }
    DurableCursors(h, base, inbox, stats, webhook, t');
    return Some(last), t';
  }

  /**
   A batch that continues the history from `acked` on, whatever the file systems and the webhook
   targets do: everything stays in order, and a sequence is handed out for acknowledgement only when
   it is the batch's last, durably in the inbox, and behind both durable cursors; and it is handed out
   unless there is no space for the batch, something fails, or a processor stands outside the inbox.
   */
  method PollRound(inbox: Inbox.Store, stats: Stats.Processor, webhook: Webhook.Processor, events: seq<Envelope>,
                   ghost h: seq<Envelope>, ghost base: nat, ghost acked: nat, ghost t: WebhookSafety.Trace,
                   at: int, fault: WriteFault, statsWorld: nat -> (int, Stats.Fault),
                   world: (nat, nat, nat) -> (Webhook.Outcome, WriteFault),
                   passing: (nat, nat) -> (Webhook.CursorFault, Ledger.RewriteFault))
    returns (ack: Option<nat>, ghost t': WebhookSafety.Trace)
    requires InOrder(h, base, inbox, stats, webhook, t) && Sane(webhook.ledger.coding, webhook.rules, h)
    requires acked + |events| <= |h| && events == h[acked..acked + |events|] && base <= acked <= inbox.last
    requires events == [] ==> !inbox.failed
    modifies inbox, stats, webhook, webhook.ledger
    ensures InOrder(h, base, inbox, stats, webhook, t')
    ensures ack.Some? ==> events != [] && ack.value == acked + |events| <= inbox.last
                          && ack.value <= Stats.Reached(stats.View(), base) && ack.value <= WebhookSafety.Reached(webhook.View(), base)
    ensures ack.None? ==> || events == [] || !Unhindered(inbox.coding, inbox.max, h, old(inbox.View()), old(inbox.disk), acked, |events|, at, fault)
                          || Outside(old(inbox.View()), old(stats.cursor)) || StatsHindered(stats.rules, h, base, statsWorld)
                          || Outside(old(inbox.View()), old(webhook.cursor)) || WebhookHindered(webhook.rules, h, base, world, passing)
  {
    t' := t;
    ghost var before := inbox.View();
    var accepted := TakeIn(inbox, events, h, acked, at, fault);
    if !accepted { return None, t'; }
    assert forall cursor :: Outside(inbox.View(), cursor) ==> Outside(before, cursor);
    ack, t' := ProcessBatch(inbox, stats, webhook, events, h, base, acked, t, statsWorld, world, passing);
  }

  /** A processor opens exactly where the inbox lets it read, and otherwise does not start. */
  lemma OpensExactly(c: Coding<Envelope>, h: seq<Envelope>, m: Inbox.Mem, d: Inbox.Disk, db: Stats.Db, cursorFile: Option<nat>, cursor: nat)
    requires InboxSafety.Inv(c, h, m, d) && !m.failed && cursor == (match cursorFile case Some(n) => n case None => m.baseline)
    ensures Stats.Open(db, cursorFile, m.baseline, m.last) ==
            if Inbox.ReadAfter(c, m, d, cursor, BATCH).Some? then Some(Stats.State(db, cursorFile, cursor)) else None
  {
    InboxSafety.ReadAfterExact(c, h, m, d, cursor, BATCH);
  }

  lemma LastNumbered(c: Coding<Ledger.Mark>, rules: Webhook.Rules, h: seq<Envelope>, acked: nat, events: seq<Envelope>)
    requires Sane(c, rules, h) && events != [] && acked + |events| <= |h| && events == h[acked..acked + |events|]
    ensures events[|events| - 1].sequence == acked + |events|
  {
    assert events[|events| - 1] == h[acked + |events| - 1];
  }

  /** A processor's cursor never runs ahead of its durable one. */
  lemma DurableCursors(h: seq<Envelope>, base: nat, inbox: Inbox.Store, stats: Stats.Processor, webhook: Webhook.Processor, t: WebhookSafety.Trace)
    requires InOrder(h, base, inbox, stats, webhook, t)
    ensures stats.cursor <= Stats.Reached(stats.View(), base) && webhook.cursor <= WebhookSafety.Reached(webhook.View(), base)
  {
  }
}
