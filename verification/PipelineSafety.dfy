/**
 End-to-end safety of the event pipeline: in every reachable state, every event the server has
 been told to forget is durably in the Agent's inbox under its original identity and behind every
 processor's durable cursor.
 */
module PipelineSafety {
  import opened Basics
  import opened RecordLog
  import opened Envelopes
  import Outbox
  import OutboxSafety
  import Inbox
  import InboxSafety
  import Stats
  import Ledger
  import Webhook
  import WebhookSafety
  import opened Pipeline

  // ---- The invariant ----

  ghost predicate ServerOk(cfg: Config, v: Server) {
    match v
    case Server(m, d, t) =>
      && OutboxSafety.Inv(cfg.coding, cfg.max, t, m, d)
      && WebhookSafety.Identified(cfg.markCoding, cfg.webhook, t.hist)
      && (t.limbo.Some? ==> FreshEvent(cfg, t.hist, t.limbo.value.0))
      && cfg.start <= m.acked
  }

  function StatsReached(cfg: Config, a: Agent): nat {
    Stats.Reached(a.stats, cfg.start)
  }

  function WebhookReached(cfg: Config, a: Agent): nat {
    WebhookSafety.Reached(a.webhook, cfg.start)
  }

  /** The Agent counts from `start`; inbox and processors agree with the history. */
  ghost predicate Tracking(cfg: Config, h: seq<Envelope>, a: Agent) {
    match a
    case Agent(m, d, st, w, t) =>
      && InboxSafety.Inv(cfg.coding, h, m, d)
      && d.baseline == cfg.start && (m.failed ==> m.last < |h|)
      && Stats.Inv(cfg.stats, h, cfg.start, st)
      && WebhookSafety.Inv(cfg.markCoding, cfg.webhook, h, cfg.start, w, t)
      && cfg.start <= StatsReached(cfg, a) <= m.last
      && cfg.start <= WebhookReached(cfg, a) <= m.last
  }

  /** No processor's durable cursor is below n. */
  ghost predicate Behind(cfg: Config, a: Agent, n: nat) {
    n <= StatsReached(cfg, a) && n <= WebhookReached(cfg, a)
  }

  ghost predicate AcksOk(cfg: Config, v: Server, a: Agent, acks: set<nat>) {
    match v
    case Server(_, d, _) => Behind(cfg, a, d.checkpoint) && forall n :: n in acks ==> Behind(cfg, a, n)
  }

  /** events is the stretch of the history behind acked. */
  ghost predicate Stretch(h: seq<Envelope>, acked: nat, events: seq<Envelope>) {
    acked + |events| <= |h| && events == h[acked..acked + |events|]
  }

  ghost predicate PcOk(cfg: Config, h: seq<Envelope>, a: Agent, acks: set<nat>, pc: Pc) {
    match pc
    case GotHandshake(acked) => acked <= a.mem.last
    case GotEvents(acked, events) =>
      cfg.start <= acked <= a.mem.last && Stretch(h, acked, events) && (events == [] ==> !a.mem.failed)
    case Accepting(acked, events, k) =>
      && cfg.start <= acked && Stretch(h, acked, events)
      && k < |events| && acked + k <= a.mem.last && !a.mem.failed
    case Processing(_, goal) => !a.mem.failed && (goal.Some? ==> cfg.start <= goal.value <= a.mem.last)
    case AwaitAck(last) => last in acks
    case _ => true
  }

  const NO_STATS := Stats.State(Stats.Db([], {}), None, 0)
  const NO_WEBHOOK := Webhook.State(map[], [], None, 0)
  const NO_MARKS := WebhookSafety.Trace([], 0, None, {}, {}, 0, false, false)

  /** The Agent has not yet taken over the server's acknowledged sequence. */
  ghost predicate Fresh(cfg: Config, s: Sys) {
    match s
    case Sys(Server(om, od, ot), Agent(m, d, st, w, t), acks, pc) =>
      && Lawful(cfg.markCoding)
      && om.acked == od.checkpoint == cfg.start && acks == {}
      && m == Inbox.Mem(0, 0, map[], 0, false) && d.log == []
      && st == NO_STATS && w == NO_WEBHOOK && t == NO_MARKS && cfg.start > 0
      && (pc.Stopped? || pc.Idle? || pc.AwaitHandshake? || pc == GotHandshake(cfg.start))
      && (d.baseline == 0 || (d.baseline == cfg.start && pc.Stopped?))
  }

  ghost predicate Settled(cfg: Config, s: Sys) {
    match s
    case Sys(v, a, acks, pc) =>
      && Tracking(cfg, v.trace.hist, a)
      && AcksOk(cfg, v, a, acks)
      && PcOk(cfg, v.trace.hist, a, acks, pc)
  }

  ghost predicate Inv(cfg: Config, s: Sys) {
    match s
    case Sys(v, _, _, _) => ServerOk(cfg, v) && (Fresh(cfg, s) || Settled(cfg, s))
  }

  // ---- Growth of the history ----

  lemma IdentifiedGrows(cfg: Config, h: seq<Envelope>, e: Envelope)
    requires WebhookSafety.Identified(cfg.markCoding, cfg.webhook, h)
    requires FreshEvent(cfg, h, e) && e.sequence == |h| + 1
    ensures WebhookSafety.Identified(cfg.markCoding, cfg.webhook, h + [e])
  {
  }

  lemma StatsGrows(rules: Stats.Rules, h: seq<Envelope>, e: Envelope, base: nat, st: Stats.State)
    requires Stats.Inv(rules, h, base, st)
    ensures Stats.Inv(rules, h + [e], base, st)
  {
    var r := Stats.Reached(st, base);
    if Stats.Folded(rules, h, base, r, st.db) {
      Stats.FoldedGrows(rules, h, e, base, r, st.db);
    }
    if Stats.Folded(rules, h, base, r + 1, st.db) {
      Stats.FoldedGrows(rules, h, e, base, r + 1, st.db);
    }
  }

  lemma TrackingGrows(cfg: Config, h: seq<Envelope>, e: Envelope, a: Agent)
    requires Tracking(cfg, h, a) && History(cfg.coding, h + [e])
    ensures Tracking(cfg, h + [e], a)
  {
    InboxSafety.Grows(cfg.coding, h, e, a.mem, a.disk);
    StatsGrows(cfg.stats, h, e, cfg.start, a.stats);
    WebhookSafety.Grows(cfg.markCoding, cfg.webhook, h, e, cfg.start, a.webhook, a.trace);
  }

  lemma PcGrows(cfg: Config, h: seq<Envelope>, e: Envelope, a: Agent, acks: set<nat>, pc: Pc)
    requires PcOk(cfg, h, a, acks, pc)
    ensures PcOk(cfg, h + [e], a, acks, pc)
  {
    match pc
    case GotEvents(acked, events) => assert (h + [e])[acked..acked + |events|] == h[acked..acked + |events|];
    case Accepting(acked, events, k) => assert (h + [e])[acked..acked + |events|] == h[acked..acked + |events|];
    case _ =>
  }

  /** The server changes, its history by at most one more event: nothing on the Agent's side notices. */
  lemma ServerChanges(cfg: Config, s: Sys, v: Server)
    requires Inv(cfg, s) && ServerOk(cfg, v)
    requires v.trace.hist == s.server.trace.hist
             || (v.trace.hist != [] && v.trace.hist == s.server.trace.hist + [v.trace.hist[|v.trace.hist| - 1]])
    requires v.disk.checkpoint == s.server.disk.checkpoint && (v.mem.acked == s.server.mem.acked || v.mem.acked == v.disk.checkpoint)
    ensures Inv(cfg, s.(server := v))
  {
    if Settled(cfg, s) && v.trace.hist != s.server.trace.hist {
      var e := v.trace.hist[|v.trace.hist| - 1];
      TrackingGrows(cfg, s.server.trace.hist, e, s.agent);
      PcGrows(cfg, s.server.trace.hist, e, s.agent, s.acks, s.pc);
    }
  }

  // ---- The server's steps ----

  lemma AppendServer(cfg: Config, v: Server, id: string, kind: string, now: int, payload: seq<Byte>, p: Outbox.Priority, fault: WriteFault)
    requires ServerOk(cfg, v)
    requires FreshEvent(cfg, v.trace.hist, Envelope(id, v.mem.latest + 1, kind, now, payload))
    ensures var v' := Appended(cfg, v, id, kind, now, payload, p, fault);
            && ServerOk(cfg, v')
            && (v'.trace.hist == v.trace.hist || v'.trace.hist == v.trace.hist + [Envelope(id, v.mem.latest + 1, kind, now, payload)])
            && v'.disk.checkpoint == v.disk.checkpoint && v'.mem.acked == v.mem.acked
  {
    OutboxSafety.AppendKeeps(cfg.coding, cfg.max, v.trace, v.mem, v.disk, id, kind, now, payload, p, fault);
    IdentifiedGrows(cfg, v.trace.hist, Envelope(id, v.mem.latest + 1, kind, now, payload));
  }

  lemma RestartServerKeeps(cfg: Config, s: Sys, cut: nat)
    requires Inv(cfg, s) && Enabled(cfg, s, RestartServer(cut))
    ensures Inv(cfg, s.(server := Restarted(cfg, s.server, cut)))
    ensures Restarted(cfg, s.server, cut).mem.acked == s.server.disk.checkpoint
  {
    var v := Restarted(cfg, s.server, cut);
    var t := s.server.trace;
    OutboxSafety.RestartKeeps(cfg.coding, cfg.max, t, s.server.disk, cut);
    if v.trace.hist != t.hist {
      IdentifiedGrows(cfg, t.hist, t.limbo.value.0);
    }
    ServerChanges(cfg, s, v);
  }

  lemma ServerInOrder(cfg: Config, s: Sys)
    requires Inv(cfg, s)
    ensures ServerOk(cfg, s.server)
  {
  }

  lemma AppendKeeps(cfg: Config, s: Sys, id: string, kind: string, now: int, payload: seq<Byte>, p: Outbox.Priority, fault: WriteFault)
    requires Inv(cfg, s)
    requires FreshEvent(cfg, s.server.trace.hist, Envelope(id, s.server.mem.latest + 1, kind, now, payload))
    ensures Inv(cfg, s.(server := Appended(cfg, s.server, id, kind, now, payload, p, fault)))
  {
    hide *;
    ServerInOrder(cfg, s);
    AppendServer(cfg, s.server, id, kind, now, payload, p, fault);
    ServerChanges(cfg, s, Appended(cfg, s.server, id, kind, now, payload, p, fault));
  }

  /** A served batch is the stretch of the history behind the acknowledged sequence; it is empty only when that is all of it. */
  lemma ServedStretch(cfg: Config, v: Server, after: nat)
    requires ServerOk(cfg, v) && Outbox.Events(v.mem, after, BATCH).Batch?
    ensures var events := Outbox.Events(v.mem, after, BATCH).events;
            after == v.mem.acked && Stretch(v.trace.hist, after, events) && (events == [] ==> v.mem.acked == |v.trace.hist|)
  {
    var n := Min(BATCH, |v.mem.events|);
    assert v.mem.events[..n] == v.trace.hist[after..after + n];
  }

  lemma AnswerEventsKeeps(cfg: Config, s: Sys, acked: nat)
    requires Inv(cfg, s) && s.pc == AwaitEvents(acked) && Outbox.Events(s.server.mem, acked, BATCH).Batch?
    ensures Inv(cfg, s.(pc := GotEvents(acked, Outbox.Events(s.server.mem, acked, BATCH).events)))
  {
    ServedStretch(cfg, s.server, acked);
  }

  lemma AckServer(cfg: Config, v: Server, sequence: nat, fault: Outbox.AckFault)
    requires ServerOk(cfg, v)
    ensures var v' := Acknowledged(cfg, v, sequence, fault).0;
            && ServerOk(cfg, v') && v'.trace.hist == v.trace.hist && v'.mem.acked >= v.mem.acked
            && (v'.disk.checkpoint == v.disk.checkpoint || v'.disk.checkpoint == sequence)
            && (v'.mem.acked != v.mem.acked ==> v'.mem.acked == sequence)
  {
    OutboxSafety.AckKeeps(cfg.coding, cfg.max, v.trace, v.mem, v.disk, sequence, fault);
  }

  lemma HandleAckKeeps(cfg: Config, s: Sys, sequence: nat, fault: Outbox.AckFault, pc: Pc)
    requires Inv(cfg, s) && sequence in s.acks && (pc == s.pc || pc == GotAck(sequence))
    ensures Inv(cfg, s.(server := Acknowledged(cfg, s.server, sequence, fault).0, pc := pc))
  {
    AckServer(cfg, s.server, sequence, fault);
    NotFresh(cfg, s, sequence);
    AckSettled(cfg, s, Acknowledged(cfg, s.server, sequence, fault).0, sequence, pc);
  }

  lemma NotFresh(cfg: Config, s: Sys, sequence: nat)
    requires Inv(cfg, s) && sequence in s.acks
    ensures Settled(cfg, s)
  {
  }

  lemma AckSettled(cfg: Config, s: Sys, v: Server, sequence: nat, pc: Pc)
    requires Settled(cfg, s) && sequence in s.acks && (pc == s.pc || pc == GotAck(sequence))
    requires v.trace.hist == s.server.trace.hist && (v.disk.checkpoint == s.server.disk.checkpoint || v.disk.checkpoint == sequence)
    ensures Settled(cfg, s.(server := v, pc := pc))
  {
  }

  // ---- The Agent's steps ----

  lemma NewAgent(cfg: Config, h: seq<Envelope>, cursor: nat)
    requires Lawful(cfg.coding) && Lawful(cfg.markCoding) && History(cfg.coding, h) && cursor <= cfg.start <= |h|
    ensures Tracking(cfg, h, Agent(Inbox.Mem(cfg.start, cfg.start, map[], 0, false), Inbox.Disk([], cfg.start),
                                   NO_STATS.(cursor := cursor), NO_WEBHOOK.(cursor := cursor), NO_MARKS))
  {
    assert h[cfg.start..cfg.start] == [];
    assert Stats.Folded(cfg.stats, h, cfg.start, cfg.start, NO_STATS.db);
    assert WebhookSafety.LedgerOk(cfg.markCoding, h, cfg.start, NO_WEBHOOK.(cursor := cursor), NO_MARKS);
  }

  /** The handshake: a fresh inbox takes over the baseline; a running one is never behind the server. */
  lemma GreetKeeps(cfg: Config, s: Sys, fault: Inbox.BaselineFault)
    requires Inv(cfg, s) && s.pc.GotHandshake?
    ensures var (a, pc) := Greeted(s.agent, s.pc.acked, fault);
            Inv(cfg, s.(agent := a, pc := pc))
    ensures Settled(cfg, s) ==> s.pc.acked <= s.agent.mem.last
  {
    if Fresh(cfg, s) {
      NewAgent(cfg, s.server.trace.hist, 0);
    }
  }

  lemma ReceiveKeeps(cfg: Config, s: Sys, acked: nat, events: seq<Envelope>)
    requires Inv(cfg, s) && s.pc == GotEvents(acked, events)
    ensures Inv(cfg, s.(pc := Received(s.agent, acked, events)))
  {
  }

  lemma AcceptEvent(cfg: Config, h: seq<Envelope>, a: Agent, e: Envelope, i: nat, fault: WriteFault, m: Inbox.Mem, d: Inbox.Disk, o: Inbox.Outcome)
    requires Tracking(cfg, h, a) && !a.mem.failed && cfg.start <= i < |h| && i <= a.mem.last && e == h[i]
    requires (m, d, o) == Inbox.AcceptOne(cfg.coding, cfg.inboxMax, a.mem, a.disk, e, fault)
    ensures Tracking(cfg, h, a.(mem := m, disk := d))
    ensures o == Inbox.Accepted || o == Inbox.Full || o == Inbox.Failed
    ensures (o.Accepted? ==> !m.failed && m.last >= i + 1) && m.last >= a.mem.last
  {
    InboxSafety.AcceptOneKeeps(cfg.coding, cfg.inboxMax, h, a.mem, a.disk, i, fault);
    InboxTracked(cfg, h, a, m, d);
  }

  /** The inbox may grow under the processors. */
  lemma InboxTracked(cfg: Config, h: seq<Envelope>, a: Agent, m: Inbox.Mem, d: Inbox.Disk)
    requires Tracking(cfg, h, a) && InboxSafety.Inv(cfg.coding, h, m, d) && d.baseline == cfg.start
    requires (m.failed ==> m.last < |h|) && a.mem.last <= m.last
    ensures Tracking(cfg, h, a.(mem := m, disk := d))
  {
  }

  /** Under polling the inbox never meets a gap, a changed identity or an oversized event. */
  lemma AcceptInbox(cfg: Config, h: seq<Envelope>, a: Agent, i: nat, fault: WriteFault)
    requires Tracking(cfg, h, a) && !a.mem.failed && cfg.start <= i < |h| && i <= a.mem.last
    ensures var (m, d, o) := Inbox.AcceptOne(cfg.coding, cfg.inboxMax, a.mem, a.disk, h[i], fault);
            && Tracking(cfg, h, a.(mem := m, disk := d))
            && (o == Inbox.Accepted || o == Inbox.Full || o == Inbox.Failed)
            && (o.Accepted? ==> !m.failed && m.last >= i + 1) && m.last >= a.mem.last
  {
    var (m, d, o) := Inbox.AcceptOne(cfg.coding, cfg.inboxMax, a.mem, a.disk, h[i], fault);
    AcceptEvent(cfg, h, a, h[i], i, fault, m, d, o);
  }

  lemma AfterAcceptOk(cfg: Config, h: seq<Envelope>, a: Agent, acks: set<nat>, o: Inbox.Outcome, acked: nat, events: seq<Envelope>, k: nat)
    requires History(cfg.coding, h) && cfg.start <= acked && Stretch(h, acked, events) && k < |events|
    requires o.Accepted? ==> !a.mem.failed && a.mem.last >= acked + k + 1
    ensures PcOk(cfg, h, a, acks, AfterAccept(o, acked, events, k))
  {
    assert events[k] == h[acked + k];
  }

  lemma EventAt(h: seq<Envelope>, acked: nat, events: seq<Envelope>, k: nat)
    requires Stretch(h, acked, events) && k < |events|
    ensures events[k] == h[acked + k]
  {
  }

  lemma AcceptAgent(cfg: Config, h: seq<Envelope>, a: Agent, acks: set<nat>, acked: nat, events: seq<Envelope>, k: nat, fault: WriteFault)
    requires Tracking(cfg, h, a) && PcOk(cfg, h, a, acks, Accepting(acked, events, k)) && k < |events| && History(cfg.coding, h)
    ensures var (a', pc') := Accepted(cfg, a, acked, events, k, fault);
            Tracking(cfg, h, a') && PcOk(cfg, h, a', acks, pc') && a' == a.(mem := a'.mem, disk := a'.disk)
  {
    var (m, d, o) := Inbox.AcceptOne(cfg.coding, cfg.inboxMax, a.mem, a.disk, events[k], fault);
    AcceptTracked(cfg, h, a, acked, events, k, fault, m, d, o);
    AfterAcceptOk(cfg, h, a.(mem := m, disk := d), acks, o, acked, events, k);
  }

  lemma AcceptTracked(cfg: Config, h: seq<Envelope>, a: Agent, acked: nat, events: seq<Envelope>, k: nat, fault: WriteFault,
                      m: Inbox.Mem, d: Inbox.Disk, o: Inbox.Outcome)
    requires Tracking(cfg, h, a) && !a.mem.failed && cfg.start <= acked && Stretch(h, acked, events) && k < |events| && acked + k <= a.mem.last
    requires (m, d, o) == Inbox.AcceptOne(cfg.coding, cfg.inboxMax, a.mem, a.disk, events[k], fault)
    ensures Tracking(cfg, h, a.(mem := m, disk := d)) && (o.Accepted? ==> !m.failed && m.last >= acked + k + 1)
  {
    EventAt(h, acked, events, k);
    AcceptEvent(cfg, h, a, events[k], acked + k, fault, m, d, o);
  }

  /** The Agent may change as long as it stays in order and no durable cursor goes back. */
  lemma AgentChanges(cfg: Config, s: Sys, a: Agent, pc: Pc)
    requires ServerOk(cfg, s.server) && Settled(cfg, s) && Tracking(cfg, s.server.trace.hist, a)
    requires StatsReached(cfg, s.agent) <= StatsReached(cfg, a) && WebhookReached(cfg, s.agent) <= WebhookReached(cfg, a)
    requires PcOk(cfg, s.server.trace.hist, a, s.acks, pc)
    ensures Inv(cfg, s.(agent := a, pc := pc))
  {
  }

  lemma AcceptNextKeeps(cfg: Config, s: Sys, acked: nat, events: seq<Envelope>, k: nat, fault: WriteFault)
    requires Inv(cfg, s) && s.pc == Accepting(acked, events, k) && k < |events|
    ensures var (a, pc) := Accepted(cfg, s.agent, acked, events, k, fault);
            Inv(cfg, s.(agent := a, pc := pc))
  {
    AcceptAgent(cfg, s.server.trace.hist, s.agent, s.acks, acked, events, k, fault);
    var (a, pc) := Accepted(cfg, s.agent, acked, events, k, fault);
    AgentChanges(cfg, s, a, pc);
  }

  /** A processor reads the event of the history behind its cursor. */
  lemma NextIsHistory(cfg: Config, h: seq<Envelope>, a: Agent, cursor: nat)
    requires Tracking(cfg, h, a) && !a.mem.failed
    ensures NextEvent(cfg, a, cursor) == if cfg.start <= cursor < a.mem.last then Some(h[cursor]) else None
  {
    InboxSafety.ReadAfterExact(cfg.coding, h, a.mem, a.disk, cursor, BATCH);
  }

  lemma CountAgent(cfg: Config, h: seq<Envelope>, a: Agent, fault: Stats.Fault)
    requires WebhookSafety.Identified(cfg.markCoding, cfg.webhook, h) && Tracking(cfg, h, a)
    requires cfg.start <= a.stats.cursor < a.mem.last
    ensures var a' := a.(stats := Stats.Handle(cfg.stats, a.stats, h[a.stats.cursor], fault).0);
            Tracking(cfg, h, a') && StatsReached(cfg, a) <= StatsReached(cfg, a')
  {
    Stats.HandleKeeps(cfg.stats, h, cfg.start, a.stats, fault);
  }

  lemma CountKeeps(cfg: Config, s: Sys, e: Envelope, fault: Stats.Fault, pc: Pc)
    requires Inv(cfg, s) && s.pc.Processing? && (pc == s.pc || pc.Idle?)
    requires NextEvent(cfg, s.agent, s.agent.stats.cursor) == Some(e)
    ensures Inv(cfg, s.(agent := s.agent.(stats := Stats.Handle(cfg.stats, s.agent.stats, e, fault).0), pc := pc))
  {
    NextIsHistory(cfg, s.server.trace.hist, s.agent, s.agent.stats.cursor);
    CountAgent(cfg, s.server.trace.hist, s.agent, fault);
    var a' := s.agent.(stats := Stats.Handle(cfg.stats, s.agent.stats, e, fault).0);
    AgentChanges(cfg, s, a', pc);
  }

  lemma NotifyAgent(cfg: Config, h: seq<Envelope>, a: Agent, step: Webhook.Step)
    requires WebhookSafety.Identified(cfg.markCoding, cfg.webhook, h) && Tracking(cfg, h, a)
    requires cfg.start <= a.webhook.cursor < a.mem.last && Webhook.Enabled(cfg.webhook, a.webhook, h[a.webhook.cursor], step)
    ensures var e := h[a.webhook.cursor];
            var a' := a.(webhook := Webhook.Apply(cfg.markCoding, a.webhook, e, step).0,
                         trace := WebhookSafety.StepTrace(cfg.markCoding, a.webhook, e, step, a.trace));
            Tracking(cfg, h, a') && WebhookReached(cfg, a) <= WebhookReached(cfg, a')
  {
    WebhookSafety.StepKeeps(cfg.markCoding, cfg.webhook, h, cfg.start, a.webhook, a.trace, step);
  }

  lemma NotifyKeeps(cfg: Config, s: Sys, e: Envelope, step: Webhook.Step, pc: Pc)
    requires Inv(cfg, s) && s.pc.Processing? && (pc == s.pc || pc.Idle?)
    requires NextEvent(cfg, s.agent, s.agent.webhook.cursor) == Some(e) && Webhook.Enabled(cfg.webhook, s.agent.webhook, e, step)
    ensures var a' := s.agent.(webhook := Webhook.Apply(cfg.markCoding, s.agent.webhook, e, step).0,
                               trace := WebhookSafety.StepTrace(cfg.markCoding, s.agent.webhook, e, step, s.agent.trace));
            Inv(cfg, s.(agent := a', pc := pc))
  {
    NextIsHistory(cfg, s.server.trace.hist, s.agent, s.agent.webhook.cursor);
    NotifyAgent(cfg, s.server.trace.hist, s.agent, step);
    var a' := s.agent.(webhook := Webhook.Apply(cfg.markCoding, s.agent.webhook, e, step).0,
                       trace := WebhookSafety.StepTrace(cfg.markCoding, s.agent.webhook, e, step, s.agent.trace));
    AgentChanges(cfg, s, a', pc);
  }

  /** An acknowledgement is sent only for a sequence behind every durable cursor. */
  lemma FinishKeeps(cfg: Config, s: Sys, acked: nat, goal: Option<nat>)
    requires Inv(cfg, s) && s.pc == Processing(acked, goal)
    ensures var pc := Finished(s.agent, acked, goal);
            && Inv(cfg, s.(pc := pc, acks := if pc.AwaitAck? then s.acks + {pc.last} else s.acks))
            && (pc.AwaitAck? ==> Behind(cfg, s.agent, pc.last))
  {
    FinishSettled(cfg, s, acked, goal);
  }

  lemma FinishSettled(cfg: Config, s: Sys, acked: nat, goal: Option<nat>)
    requires Settled(cfg, s) && s.pc == Processing(acked, goal)
    ensures var pc := Finished(s.agent, acked, goal);
            && Settled(cfg, s.(pc := pc, acks := if pc.AwaitAck? then s.acks + {pc.last} else s.acks))
            && (pc.AwaitAck? ==> Behind(cfg, s.agent, pc.last))
  {
    CursorsBehind(cfg, s.server.trace.hist, s.agent);
  }

  /** Within the inbox, a processor's cursor never runs ahead of its durable one. */
  lemma CursorsBehind(cfg: Config, h: seq<Envelope>, a: Agent)
    requires Tracking(cfg, h, a)
    ensures a.stats.cursor <= StatsReached(cfg, a) && a.webhook.cursor <= WebhookReached(cfg, a)
  {
  }

  // ---- Crash and restart of the Agent ----

  lemma OpenEmpty(cfg: Config, base: nat)
    ensures InboxSafety.Restart(cfg.coding, Inbox.Disk([], base), 0) == (Inbox.Mem(base, base, map[], 0, false), Inbox.Disk([], base))
  {
    assert Inbox.Disk([], base).log[..0] == [];
  }

  lemma OpenNoMarks(cfg: Config, base: nat)
    ensures WebhookSafety.Restart(cfg.markCoding, NO_WEBHOOK, 0, base) == NO_WEBHOOK.(cursor := base)
    ensures WebhookSafety.RestartTrace(cfg.markCoding, NO_WEBHOOK, NO_MARKS, 0, NO_WEBHOOK.(cursor := base)) == NO_MARKS
  {
    assert NO_WEBHOOK.log[..0] == [];
  }

  /** Before the baseline is taken over, a restart changes nothing but perhaps completes the take-over. */
  lemma ReopenFresh(cfg: Config, a: Agent, base: nat)
    requires a == Agent(Inbox.Mem(0, 0, map[], 0, false), Inbox.Disk([], base), NO_STATS, NO_WEBHOOK, NO_MARKS)
    ensures Reopened(cfg, a, 0, 0) ==
            (Agent(Inbox.Mem(base, base, map[], 0, false), Inbox.Disk([], base),
                   NO_STATS.(cursor := base), NO_WEBHOOK.(cursor := base), NO_MARKS), Idle)
  {
    OpenEmpty(cfg, base);
    OpenNoMarks(cfg, base);
  }

  lemma ReopenInbox(cfg: Config, h: seq<Envelope>, a: Agent, cut: nat)
    requires Tracking(cfg, h, a) && a.mem.bytes <= cut <= |a.disk.log|
    ensures var (m, d) := InboxSafety.Restart(cfg.coding, a.disk, cut);
            InboxSafety.Inv(cfg.coding, h, m, d) && !m.failed && d.baseline == m.baseline == cfg.start && m.last >= a.mem.last
  {
    InboxSafety.RestartKeeps(cfg.coding, h, a.mem.last, a.disk, cut);
  }

  lemma ReopenStats(cfg: Config, h: seq<Envelope>, a: Agent, last: nat)
    requires Tracking(cfg, h, a) && a.mem.last <= last
    ensures var st := a.stats.(cursor := StatsReached(cfg, a));
            Stats.Open(a.stats.db, a.stats.cursorFile, cfg.start, last) == Some(st) && Stats.Inv(cfg.stats, h, cfg.start, st)
  {
  }

  lemma ReopenWebhook(cfg: Config, h: seq<Envelope>, a: Agent, cut: nat)
    requires Tracking(cfg, h, a) && DurableLedger(cfg, a.trace) <= cut <= |a.webhook.log|
    ensures var w := WebhookSafety.Restart(cfg.markCoding, a.webhook, cut, cfg.start);
            && WebhookSafety.Inv(cfg.markCoding, cfg.webhook, h, cfg.start, w, WebhookSafety.RestartTrace(cfg.markCoding, a.webhook, a.trace, cut, w))
            && w.cursorFile == a.webhook.cursorFile && w.cursor == WebhookReached(cfg, a)
  {
    WebhookSafety.RestartKeeps(cfg.markCoding, cfg.webhook, h, cfg.start, a.webhook, a.trace, cut);
  }

  /** The Agent always comes up again: no processor finds its cursor outside the inbox. */
  lemma ReopenTracking(cfg: Config, h: seq<Envelope>, a: Agent, cutInbox: nat, cutLedger: nat)
    requires Tracking(cfg, h, a)
    requires a.mem.bytes <= cutInbox <= |a.disk.log|
    requires DurableLedger(cfg, a.trace) <= cutLedger <= |a.webhook.log|
    ensures var (a', pc) := Reopened(cfg, a, cutInbox, cutLedger);
            && Tracking(cfg, h, a') && pc == Idle && a'.mem.last >= a.mem.last
            && StatsReached(cfg, a') == StatsReached(cfg, a) && WebhookReached(cfg, a') == WebhookReached(cfg, a)
  {
    hide InboxSafety.Inv, InboxSafety.Restart, Stats.Inv, WebhookSafety.Inv, WebhookSafety.Restart, WebhookSafety.RestartTrace;
    var (m, d) := InboxSafety.Restart(cfg.coding, a.disk, cutInbox);
    ReopenInbox(cfg, h, a, cutInbox);
    ReopenStats(cfg, h, a, m.last);
    ReopenWebhook(cfg, h, a, cutLedger);
  }

  lemma RestartFreshKeeps(cfg: Config, s: Sys, cutInbox: nat, cutLedger: nat)
    requires cutInbox <= |s.agent.disk.log| && cutLedger <= |s.agent.webhook.log|
    requires ServerOk(cfg, s.server) && Fresh(cfg, s) && Enabled(cfg, s, RestartAgent(cutInbox, cutLedger))
    ensures var (a, pc) := Reopened(cfg, s.agent, cutInbox, cutLedger);
            Inv(cfg, s.(agent := a, pc := pc)) && pc == Idle
  {
    assert cutInbox == 0 && cutLedger == 0;
    ReopenFresh(cfg, s.agent, s.agent.disk.baseline);
    if s.agent.disk.baseline == cfg.start {
      NewAgent(cfg, s.server.trace.hist, cfg.start);
    }
  }

  lemma RestartSettledKeeps(cfg: Config, s: Sys, cutInbox: nat, cutLedger: nat)
    requires cutInbox <= |s.agent.disk.log| && cutLedger <= |s.agent.webhook.log|
    requires ServerOk(cfg, s.server) && Settled(cfg, s) && Enabled(cfg, s, RestartAgent(cutInbox, cutLedger))
    ensures var (a, pc) := Reopened(cfg, s.agent, cutInbox, cutLedger);
            Settled(cfg, s.(agent := a, pc := pc)) && pc == Idle
  {
    ReopenTracking(cfg, s.server.trace.hist, s.agent, cutInbox, cutLedger);
  }

  lemma RestartAgentKeeps(cfg: Config, s: Sys, cutInbox: nat, cutLedger: nat)
    requires cutInbox <= |s.agent.disk.log| && cutLedger <= |s.agent.webhook.log|
    requires Inv(cfg, s) && Enabled(cfg, s, RestartAgent(cutInbox, cutLedger))
    ensures var (a, pc) := Reopened(cfg, s.agent, cutInbox, cutLedger);
            Inv(cfg, s.(agent := a, pc := pc)) && pc == Idle
  {
    if Fresh(cfg, s) {
      RestartFreshKeeps(cfg, s, cutInbox, cutLedger);
    } else {
      RestartSettledKeeps(cfg, s, cutInbox, cutLedger);
    }
  }

  // ---- Every step, every run ----

  lemma StepKeeps(cfg: Config, s: Sys, act: Action)
    requires Inv(cfg, s) && Enabled(cfg, s, act)
    ensures Inv(cfg, Do(cfg, s, act))
  {
    match act
    case Append(id, kind, now, payload, p, fault) => AppendKeeps(cfg, s, id, kind, now, payload, p, fault);
    case RestartServer(cut) => RestartServerKeeps(cfg, s, cut);
    case AnswerHandshake => QuietKeeps(cfg, s, act);
    case AnswerEvents =>
      if Outbox.Events(s.server.mem, s.pc.acked, BATCH).Batch? {
        AnswerEventsKeeps(cfg, s, s.pc.acked);
      } else {
        QuietKeeps(cfg, s, GiveUp);
      }
    case HandleAck(sequence, fault) => HandleAckKeeps(cfg, s, sequence, fault, Do(cfg, s, act).pc);
    case Connect => QuietKeeps(cfg, s, act);
    case Greet(fault) => GreetKeeps(cfg, s, fault);
    case Receive => ReceiveKeeps(cfg, s, s.pc.acked, s.pc.events);
    case AcceptNext(fault) => AcceptNextKeeps(cfg, s, s.pc.acked, s.pc.events, s.pc.k, fault);
    case Count(fault) => CountKeeps(cfg, s, NextEvent(cfg, s.agent, s.agent.stats.cursor).value, fault, Do(cfg, s, act).pc);
    case Notify(step) => NotifyKeeps(cfg, s, NextEvent(cfg, s.agent, s.agent.webhook.cursor).value, step, Do(cfg, s, act).pc);
    case Finish => FinishKeeps(cfg, s, s.pc.acked, s.pc.goal);
    case Resume => QuietKeeps(cfg, s, act);
    case GiveUp => QuietKeeps(cfg, s, act);
    case RestartAgent(cutInbox, cutLedger) => RestartAgentKeeps(cfg, s, cutInbox, cutLedger);
  }

  /** Steps that move only the Agent's position. */
  lemma QuietKeeps(cfg: Config, s: Sys, act: Action)
    requires Inv(cfg, s) && Enabled(cfg, s, act)
    requires act.AnswerHandshake? || act.Connect? || act.Resume? || act.GiveUp?
    ensures Inv(cfg, Do(cfg, s, act))
  {
  }

  ghost predicate Next(cfg: Config, s: Sys, act: Action, s': Sys) {
    match act
    case _ => Enabled(cfg, s, act) && s' == Do(cfg, s, act)
  }

  /** A run: the states before and after each of its steps. */
  ghost predicate Run(cfg: Config, states: seq<Sys>, acts: seq<Action>) {
    |states| == |acts| + 1 && forall i :: 0 <= i < |acts| ==> Next(cfg, states[i], acts[i], states[i + 1])
  }

  /** A server that has acknowledged `start`, and an Agent with nothing on its disk. */
  ghost predicate Init(cfg: Config, s: Sys) {
    match s
    case Sys(v, a, acks, pc) =>
      && ServerOk(cfg, v) && v.mem.acked == v.disk.checkpoint == cfg.start && Lawful(cfg.markCoding)
      && a == Agent(Inbox.Mem(0, 0, map[], 0, false), Inbox.Disk([], 0), NO_STATS, NO_WEBHOOK, NO_MARKS)
      && acks == {} && pc == Idle
  }

  lemma InitInv(cfg: Config, s: Sys)
    requires Init(cfg, s)
    ensures Inv(cfg, s)
  {
    if cfg.start == 0 {
      NewAgent(cfg, s.server.trace.hist, 0);
    }
  }

  lemma NextKeeps(cfg: Config, s: Sys, act: Action, s': Sys)
    requires Inv(cfg, s) && Next(cfg, s, act, s')
    ensures Inv(cfg, s')
  {
    StepKeeps(cfg, s, act);
  }

  lemma {:induction false} RunInv(cfg: Config, states: seq<Sys>, acts: seq<Action>, i: nat)
    requires Run(cfg, states, acts) && Init(cfg, states[0]) && i < |states|
    ensures Inv(cfg, states[i])
    decreases i
  {
    if i == 0 {
      InitInv(cfg, states[0]);
    } else {
      RunInv(cfg, states, acts, i - 1);
      NextKeeps(cfg, states[i - 1], acts[i - 1], states[i]);
    }
  }

  // ---- Main results ----

  /** Event n of the history is in the inbox under its own ID, on disk, and behind every durable cursor. */
  ghost predicate Safe(cfg: Config, s: Sys, n: nat) {
    var h, a := s.server.trace.hist, s.agent;
    && 1 <= n <= |h| && h[n - 1].sequence == n
    && a.disk.baseline < n <= a.mem.last <= |h|
    && n in a.mem.ids && a.mem.ids[n] == h[n - 1].id
    && Prefix(LogBytes(cfg.coding, h[a.disk.baseline..a.mem.last]), a.disk.log)
    && Behind(cfg, a, n)
  }

  lemma AckedSafe(cfg: Config, s: Sys, n: nat)
    requires Inv(cfg, s) && cfg.start < n <= s.server.disk.checkpoint
    ensures Safe(cfg, s, n)
  {
  }

  /**
   In every run, whatever crashes, is lost, delayed or repeated: every event between the Agent's
   start and what the server has acknowledged, in memory or on disk, is safe.
   */
  lemma NothingLost(cfg: Config, states: seq<Sys>, acts: seq<Action>, i: nat, n: nat)
    requires Run(cfg, states, acts) && Init(cfg, states[0]) && i < |states|
    requires cfg.start < n && (n <= states[i].server.mem.acked || n <= states[i].server.disk.checkpoint)
    ensures Safe(cfg, states[i], n)
  {
    RunInv(cfg, states, acts, i);
    AckedSafe(cfg, states[i], n);
  }

  /** The database is the ordered fold, each match once, of the history up to the durable cursor or one event past it. */
  ghost predicate CountedUpTo(cfg: Config, h: seq<Envelope>, a: Agent) {
    var db, r := a.stats.db, StatsReached(cfg, a);
    || (cfg.start <= r <= |h| && db.matches == Filter(cfg.stats.isMatch, h[cfg.start..r]))
    || (cfg.start <= r < |h| && db.matches == Filter(cfg.stats.isMatch, h[cfg.start..r + 1]))
  }

  lemma CountedInv(cfg: Config, h: seq<Envelope>, a: Agent)
    requires Stats.Inv(cfg.stats, h, cfg.start, a.stats) && cfg.start <= StatsReached(cfg, a)
    ensures CountedUpTo(cfg, h, a)
  {
  }

  lemma CountedOnce(cfg: Config, states: seq<Sys>, acts: seq<Action>, i: nat)
    requires Run(cfg, states, acts) && Init(cfg, states[0]) && i < |states|
    ensures CountedUpTo(cfg, states[i].server.trace.hist, states[i].agent)
  {
    RunInv(cfg, states, acts, i);
    var s := states[i];
    var h := s.server.trace.hist;
    if Fresh(cfg, s) {
      assert h[cfg.start..cfg.start] == [];
    } else {
      CountedInv(cfg, h, s.agent);
    }
  }

  lemma StepLoses(cfg: Config, s: Sys, act: Action)
    requires Enabled(cfg, s, act) && !s.agent.trace.lost && (act.RestartAgent? ==> !s.agent.trace.exposed)
    ensures !Do(cfg, s, act).agent.trace.lost
  {
    if act.Notify? {
      var e := NextEvent(cfg, s.agent, s.agent.webhook.cursor).value;
      WebhookSafety.StepLoses(cfg.markCoding, s.agent.webhook, e, act.step, s.agent.trace);
    }
  }

  /** The Agent never crashes between writing a mark behind a torn one and the next rewrite of the ledger. */
  ghost predicate NoCrashWhileExposed(states: seq<Sys>, acts: seq<Action>) {
    forall k :: 0 <= k < |acts| && k < |states| && acts[k].RestartAgent? ==> !states[k].agent.trace.exposed
  }

  lemma {:induction false} NothingUnmarked(cfg: Config, states: seq<Sys>, acts: seq<Action>, i: nat)
    requires Run(cfg, states, acts) && Init(cfg, states[0]) && i < |states| && NoCrashWhileExposed(states, acts)
    ensures !states[i].agent.trace.lost
    decreases i
  {
    if i > 0 {
      NothingUnmarked(cfg, states, acts, i - 1);
      assert Next(cfg, states[i - 1], acts[i - 1], states[i]);
      StepLoses(cfg, states[i - 1], acts[i - 1]);
    }
  }

  /** Every acknowledged event has been delivered to each planned target, and marked targets are never delivered to again. */
  lemma NotifiedOnce(cfg: Config, states: seq<Sys>, acts: seq<Action>, i: nat, n: nat, target: string)
    requires Run(cfg, states, acts) && Init(cfg, states[0]) && i < |states|
    requires NoCrashWhileExposed(states, acts)
    ensures states[i].agent.trace.late == 0
    ensures cfg.start < n <= states[i].server.disk.checkpoint ==>
              var h := states[i].server.trace.hist;
              n <= |h| && (target in Webhook.Targets(cfg.webhook, h[n - 1]) ==>
                             Ledger.Key(h[n - 1].id, target) in states[i].agent.trace.marked * states[i].agent.trace.settled)
  {
    NothingUnmarked(cfg, states, acts, i);
    RunInv(cfg, states, acts, i);
    var s := states[i];
    if Settled(cfg, s) && cfg.start < n <= s.server.disk.checkpoint {
      WebhookSafety.DeliveredOnce(cfg.markCoding, cfg.webhook, s.server.trace.hist, cfg.start, s.agent.webhook, s.agent.trace, n - 1, target);
    }
  }

  ghost predicate Forward(v: Server, v': Server) {
    && v.mem.acked <= v'.mem.acked && v.mem.latest <= v'.mem.latest
    && Prefix(v.trace.hist, v'.trace.hist)
  }

  lemma RestartForward(cfg: Config, v: Server, cut: nat)
    requires ServerOk(cfg, v) && |OutboxSafety.Synced(cfg.coding, v.trace)| <= cut <= |v.disk.log|
    ensures Forward(v, Restarted(cfg, v, cut))
  {
    OutboxSafety.RestartKeeps(cfg.coding, cfg.max, v.trace, v.disk, cut);
  }

  /** A server that is in order has everything it ever appended as its latest sequence. */
  lemma ForwardOk(cfg: Config, v: Server, v': Server)
    requires ServerOk(cfg, v) && ServerOk(cfg, v') && v.mem.acked <= v'.mem.acked && Prefix(v.trace.hist, v'.trace.hist)
    ensures Forward(v, v')
  {
  }

  lemma AppendForward(cfg: Config, v: Server, id: string, kind: string, now: int, payload: seq<Byte>, p: Outbox.Priority, fault: WriteFault)
    requires ServerOk(cfg, v)
    requires FreshEvent(cfg, v.trace.hist, Envelope(id, v.mem.latest + 1, kind, now, payload))
    ensures Forward(v, Appended(cfg, v, id, kind, now, payload, p, fault))
  {
    AppendServer(cfg, v, id, kind, now, payload, p, fault);
    ForwardOk(cfg, v, Appended(cfg, v, id, kind, now, payload, p, fault));
  }

  lemma AckForward(cfg: Config, v: Server, sequence: nat, fault: Outbox.AckFault)
    requires ServerOk(cfg, v)
    ensures Forward(v, Acknowledged(cfg, v, sequence, fault).0)
  {
    AckServer(cfg, v, sequence, fault);
    ForwardOk(cfg, v, Acknowledged(cfg, v, sequence, fault).0);
  }

  lemma AppendMonotone(cfg: Config, s: Sys, act: Action)
    requires ServerOk(cfg, s.server) && Enabled(cfg, s, act) && act.Append?
    ensures Forward(s.server, Do(cfg, s, act).server)
  {
    AppendForward(cfg, s.server, act.id, act.kind, act.now, act.payload, act.priority, act.writeFault);
  }

  lemma SameServer(cfg: Config, s: Sys, act: Action)
    requires Enabled(cfg, s, act) && !act.Append? && !act.RestartServer? && !act.HandleAck?
    ensures Do(cfg, s, act).server == s.server
  {
  }

  /** Acknowledged and latest sequence never go back, and the history only grows. */
  lemma StepMonotone(cfg: Config, s: Sys, act: Action)
    requires Inv(cfg, s) && Enabled(cfg, s, act)
    ensures Forward(s.server, Do(cfg, s, act).server)
  {
    if act.Append? {
      AppendMonotone(cfg, s, act);
    } else if act.RestartServer? {
      RestartForward(cfg, s.server, act.cut);
    } else if act.HandleAck? {
      AckForward(cfg, s.server, act.sequence, act.ackFault);
    } else {
      SameServer(cfg, s, act);
    }
  }

  // ---- The fresh Agent's stall ----

  /** The processors were opened before the baseline was known, and stand below it. */
  ghost predicate Stalled(cfg: Config, a: Agent) {
    match a
    case Agent(m, _, st, w, _) => m.baseline == cfg.start && st.cursor < cfg.start && w.cursor < cfg.start
  }

  /**
   The answer to a handshake stalls an Agent exactly when its inbox is behind the server, so that
   it takes over the baseline under processors that are already open; that happens to a fresh one only.
   */
  lemma FreshAgentStalls(cfg: Config, s: Sys)
    requires Inv(cfg, s) && s.pc.GotHandshake?
    ensures Stalled(cfg, Greeted(s.agent, s.pc.acked, Inbox.NoBaselineFault).0) <==>
            s.agent.mem.last < s.pc.acked || Stalled(cfg, s.agent)
    ensures s.agent.mem.last < s.pc.acked <==> Fresh(cfg, s)
  {
  }

  /** While stalled it acknowledges nothing, whatever happens, short of a restart of the Agent. */
  lemma StallLasts(cfg: Config, s: Sys, act: Action)
    requires Inv(cfg, s) && Stalled(cfg, s.agent) && Enabled(cfg, s, act) && !act.RestartAgent?
    ensures Stalled(cfg, Do(cfg, s, act).agent) && Do(cfg, s, act).acks == s.acks
  {
    match act
    case Greet(fault) => GreetKeeps(cfg, s, fault);
    case AcceptNext(fault) => AcceptBaseline(cfg, s.agent, s.pc.events[s.pc.k], fault);
    case Count(fault) => StalledReads(cfg, s);
    case Notify(step) => StalledReads(cfg, s);
    case Finish => StalledReads(cfg, s);
    case _ =>
  }

  lemma AcceptBaseline(cfg: Config, a: Agent, e: Envelope, fault: WriteFault)
    ensures Inbox.AcceptOne(cfg.coding, cfg.inboxMax, a.mem, a.disk, e, fault).0.baseline == a.mem.baseline
  {
  }

  lemma StalledReads(cfg: Config, s: Sys)
    requires Inv(cfg, s) && Stalled(cfg, s.agent) && s.pc.Processing?
    ensures NextEvent(cfg, s.agent, s.agent.stats.cursor) == None && NextEvent(cfg, s.agent, s.agent.webhook.cursor) == None
    ensures !Finished(s.agent, s.pc.acked, s.pc.goal).AwaitAck?
  {
    AgentProcessing(cfg, s);
    NothingNext(cfg, s.server.trace.hist, s.agent);
  }

  lemma AgentProcessing(cfg: Config, s: Sys)
    requires Inv(cfg, s) && s.pc.Processing?
    ensures Tracking(cfg, s.server.trace.hist, s.agent) && !s.agent.mem.failed
    ensures s.pc.goal.Some? ==> cfg.start <= s.pc.goal.value
  {
  }

  lemma NothingNext(cfg: Config, h: seq<Envelope>, a: Agent)
    requires Tracking(cfg, h, a) && !a.mem.failed && Stalled(cfg, a)
    ensures NextEvent(cfg, a, a.stats.cursor) == None && NextEvent(cfg, a, a.webhook.cursor) == None
  {
    NextIsHistory(cfg, h, a, a.stats.cursor);
    NextIsHistory(cfg, h, a, a.webhook.cursor);
  }

  /** A restart ends the stall: each processor stands at its durable cursor, never below the baseline. */
  lemma RestartEndsStall(cfg: Config, s: Sys, cutInbox: nat, cutLedger: nat)
    requires cutInbox <= |s.agent.disk.log| && cutLedger <= |s.agent.webhook.log|
    requires Inv(cfg, s) && Settled(cfg, s) && Enabled(cfg, s, RestartAgent(cutInbox, cutLedger))
    ensures var (a, pc) := Reopened(cfg, s.agent, cutInbox, cutLedger);
            && pc.Idle? && a.stats.cursor == StatsReached(cfg, s.agent) >= cfg.start
            && a.webhook.cursor == WebhookReached(cfg, s.agent) >= cfg.start
  {
    hide InboxSafety.Inv, InboxSafety.Restart, Stats.Inv, WebhookSafety.Inv, WebhookSafety.Restart, WebhookSafety.RestartTrace, ServerOk, Fresh;
    var (m, d) := InboxSafety.Restart(cfg.coding, s.agent.disk, cutInbox);
    ReopenInbox(cfg, s.server.trace.hist, s.agent, cutInbox);
    ReopenStats(cfg, s.server.trace.hist, s.agent, m.last);
    ReopenWebhook(cfg, s.server.trace.hist, s.agent, cutLedger);
  }
}
