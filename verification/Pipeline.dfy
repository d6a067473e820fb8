/**
 The whole event pipeline as a state machine: the server's outbox, the requests and responses
 between server and Agent, the Agent's inbox, its processors, and the acknowledgement, with
 crashes and restarts of either side and lost, late and repeated requests.

 The Agent is one process: it connects, takes over the acknowledged sequence as its baseline if
 its inbox is behind, and then repeats: fetch, accept durably, process, check the cursors,
 acknowledge. Any error sends it back to connecting.
 */
module Pipeline {
  import opened Basics
  import opened RecordLog
  import opened Envelopes
  import Outbox
  import OutboxSafety
  import Inbox
  import InboxSafety
  import Stats
  import Ledger
  import Webhook
  import WebhookSafety

  const BATCH := 100

  /** `start` is what the server had acknowledged when this Agent's (empty) inbox was created. */
  datatype Config = Config(coding: Coding<Envelope>, markCoding: Coding<Ledger.Mark>, max: nat, inboxMax: nat,
                           stats: Stats.Rules, webhook: Webhook.Rules, start: nat)

  datatype Server = Server(mem: Outbox.Mem, disk: Outbox.Disk, trace: OutboxSafety.Trace)

  datatype Agent = Agent(mem: Inbox.Mem, disk: Inbox.Disk, stats: Stats.State, webhook: Webhook.State, trace: WebhookSafety.Trace)

  /** Where the Agent is: which request it waits for, or which response it has in hand. */
  datatype Pc =
    | Idle
    | AwaitHandshake
    | GotHandshake(acked: nat)
    | AwaitEvents(acked: nat)
    | GotEvents(acked: nat, events: seq<Envelope>)
    | Accepting(acked: nat, events: seq<Envelope>, k: nat)
    | Processing(acked: nat, goal: Option<nat>)
    | AwaitAck(last: nat)
    | GotAck(last: nat)
    | Stopped

  /** `acks` are the acknowledgements ever sent; the server may handle any of them at any time, or never. */
  datatype Sys = Sys(server: Server, agent: Agent, acks: set<nat>, pc: Pc)

  datatype Action =
    | Append(id: string, kind: string, now: int, payload: seq<Byte>, priority: Outbox.Priority, writeFault: WriteFault)
    | RestartServer(cut: nat)
    | AnswerHandshake
    | AnswerEvents
    | HandleAck(sequence: nat, ackFault: Outbox.AckFault)
    | Connect
    | Greet(baselineFault: Inbox.BaselineFault)
    | Receive
    | AcceptNext(acceptFault: WriteFault)
    | Count(statsFault: Stats.Fault)
    | Notify(step: Webhook.Step)
    | Finish
    | Resume
    | GiveUp
    | RestartAgent(cutInbox: nat, cutLedger: nat)

  // ---- The server's steps ----

  ghost function Appended(cfg: Config, v: Server, id: string, kind: string, now: int, payload: seq<Byte>,
                          p: Outbox.Priority, fault: WriteFault): Server
  {
    var (m, d, r) := Outbox.Append(cfg.coding, cfg.max, v.mem, v.disk, id, kind, now, payload, p, fault);
    Server(m, d, OutboxSafety.AppendTrace(v.trace, v.mem, id, kind, now, payload, p, r))
  }

  ghost function Restarted(cfg: Config, v: Server, cut: nat): Server
    requires cut <= |v.disk.log| && v.trace.from <= |v.trace.hist|
  {
    var (m, d) := OutboxSafety.Restart(cfg.coding, v.disk, cut);
    Server(m, d, OutboxSafety.RestartTrace(cfg.coding, v.trace, cut))
  }

  ghost function Acknowledged(cfg: Config, v: Server, sequence: nat, fault: Outbox.AckFault): (Server, Outbox.AckResult) {
    var (m, d, r) := Outbox.Ack(cfg.coding, v.mem, v.disk, sequence, fault);
    (Server(m, d, OutboxSafety.AckTrace(v.trace, v.mem, m, sequence, fault)), r)
  }

  // ---- The Agent's steps ----

  /** The response to the handshake arrives: take over the baseline if the inbox is behind, then start polling. */
  function Greeted(a: Agent, acked: nat, fault: Inbox.BaselineFault): (Agent, Pc) {
    if a.mem.last < acked then
      var (m, d, ok) := Inbox.SetBaseline(a.mem, a.disk, acked, fault);
      (a.(mem := m, disk := d), if ok then AwaitEvents(acked) else Stopped)
    else (a, AwaitEvents(acked))
  }

  /** A batch arrives: accept it unless it is empty. */
  function Received(a: Agent, acked: nat, events: seq<Envelope>): Pc {
    if events == [] then Processing(acked, None)
    else if a.mem.failed then Idle
    else Accepting(acked, events, 0)
  }

  function Accepted(cfg: Config, a: Agent, acked: nat, events: seq<Envelope>, k: nat, fault: WriteFault): (Agent, Pc)
    requires k < |events|
  {
    var (m, d, o) := Inbox.AcceptOne(cfg.coding, cfg.inboxMax, a.mem, a.disk, events[k], fault);
    (a.(mem := m, disk := d), AfterAccept(o, acked, events, k))
  }

  /** The next event of the batch, or processing once the last one is durable. */
  function AfterAccept(o: Inbox.Outcome, acked: nat, events: seq<Envelope>, k: nat): Pc
    requires k < |events|
  {
    if !o.Accepted? then Idle
    else if k + 1 < |events| then Accepting(acked, events, k + 1)
    else Processing(acked, Some(events[k].sequence))
  }

  /** The event a processor at the given cursor reads next. */
  function NextEvent(cfg: Config, a: Agent, cursor: nat): Option<Envelope> {
    match Inbox.ReadAfter(cfg.coding, a.mem, a.disk, cursor, BATCH)
    case Some(events) => if events == [] then None else Some(events[0])
    case None => None
  }

  /** After processing: acknowledge the batch if every processor is past it. */
  function Finished(a: Agent, acked: nat, goal: Option<nat>): Pc {
    match goal
    case None => AwaitEvents(acked)
    case Some(n) => if a.stats.cursor < n || a.webhook.cursor < n then Idle else AwaitAck(n)
  }

  /** Opening the inbox, the ledger and the processors again; a processor refuses a cursor outside the inbox. */
  ghost function Reopened(cfg: Config, a: Agent, cutInbox: nat, cutLedger: nat): (Agent, Pc)
    requires cutInbox <= |a.disk.log| && cutLedger <= |a.webhook.log|
  {
    var (m, d) := InboxSafety.Restart(cfg.coding, a.disk, cutInbox);
    var w := WebhookSafety.Restart(cfg.markCoding, a.webhook, cutLedger, m.baseline);
    var t := WebhookSafety.RestartTrace(cfg.markCoding, a.webhook, a.trace, cutLedger, w);
    match Stats.Open(a.stats.db, a.stats.cursorFile, m.baseline, m.last)
    case Some(st) => if w.cursor < m.baseline || w.cursor > m.last then (Agent(m, d, st, w, t), Stopped) else (Agent(m, d, st, w, t), Idle)
    case None => (Agent(m, d, a.stats, w, t), Stopped)
  }

  // ---- The machine ----

  /** A new event: its ID was never used and makes sound ledger keys. */
  ghost predicate FreshEvent(cfg: Config, h: seq<Envelope>, e: Envelope) {
    && e.id != "" && Ledger.NUL !in e.id
    && (forall i :: 0 <= i < |h| ==> h[i].id != e.id)
    && (forall target, status :: target in Webhook.Targets(cfg.webhook, e) ==> Ledger.Sound(cfg.markCoding, Ledger.Mark(e.id, target, status)))
  }

  /** How much of the ledger file a crash cannot take. */
  ghost function DurableLedger(cfg: Config, t: WebhookSafety.Trace): nat {
    if t.lost || t.exposed || t.durable > |t.marks| then 0 else |LogBytes(cfg.markCoding, t.marks[..t.durable])|
  }

  ghost predicate Enabled(cfg: Config, s: Sys, act: Action) {
    match act
    case Append(id, kind, now, payload, _, _) =>
      FreshEvent(cfg, s.server.trace.hist, Envelope(id, s.server.mem.latest + 1, kind, now, payload))
    case RestartServer(cut) =>
      var t := s.server.trace;
      t.from <= |t.hist| && |OutboxSafety.Synced(cfg.coding, t)| <= cut <= |s.server.disk.log|
    case AnswerHandshake => s.pc.AwaitHandshake?
    case AnswerEvents => s.pc.AwaitEvents?
    case HandleAck(sequence, _) => sequence in s.acks
    case Connect => s.pc.Idle?
    case Greet(_) => s.pc.GotHandshake?
    case Receive => s.pc.GotEvents?
    case AcceptNext(_) => s.pc.Accepting? && s.pc.k < |s.pc.events|
    case Count(_) => s.pc.Processing? && NextEvent(cfg, s.agent, s.agent.stats.cursor).Some?
    case Notify(step) =>
      && s.pc.Processing?
      && (match NextEvent(cfg, s.agent, s.agent.webhook.cursor)
          case Some(e) => Webhook.Enabled(cfg.webhook, s.agent.webhook, e, step)
          case None => false)
    case Finish => s.pc.Processing?
    case Resume => s.pc.GotAck?
    case GiveUp => !s.pc.Stopped?
    case RestartAgent(cutInbox, cutLedger) =>
      && s.agent.mem.bytes <= cutInbox <= |s.agent.disk.log|
      && DurableLedger(cfg, s.agent.trace) <= cutLedger <= |s.agent.webhook.log|
  }

  ghost function Do(cfg: Config, s: Sys, act: Action): Sys
    requires Enabled(cfg, s, act)
  {
    match act
    case Append(id, kind, now, payload, p, fault) => s.(server := Appended(cfg, s.server, id, kind, now, payload, p, fault))
    case RestartServer(cut) => s.(server := Restarted(cfg, s.server, cut))
    case AnswerHandshake => s.(pc := GotHandshake(s.server.mem.acked))
    case AnswerEvents =>
      (match Outbox.Events(s.server.mem, s.pc.acked, BATCH)
       case Batch(events, _, _) => s.(pc := GotEvents(s.pc.acked, events))
       case EventsRefused(_, _) => s.(pc := Idle))
    case HandleAck(sequence, fault) =>
      var (v, r) := Acknowledged(cfg, s.server, sequence, fault);
      s.(server := v, pc := if r.AckOk? && s.pc == AwaitAck(sequence) then GotAck(sequence) else s.pc)
    case Connect => s.(pc := AwaitHandshake)
    case Greet(fault) =>
      var (a, pc) := Greeted(s.agent, s.pc.acked, fault);
      s.(agent := a, pc := pc)
    case Receive => s.(pc := Received(s.agent, s.pc.acked, s.pc.events))
    case AcceptNext(fault) =>
      var (a, pc) := Accepted(cfg, s.agent, s.pc.acked, s.pc.events, s.pc.k, fault);
      s.(agent := a, pc := pc)
    case Count(fault) =>
      var e := NextEvent(cfg, s.agent, s.agent.stats.cursor).value;
      var (st, ok) := Stats.Handle(cfg.stats, s.agent.stats, e, fault);
      s.(agent := s.agent.(stats := st), pc := if ok then s.pc else Idle)
    case Notify(step) =>
      var e := NextEvent(cfg, s.agent, s.agent.webhook.cursor).value;
      var (w, ok) := Webhook.Apply(cfg.markCoding, s.agent.webhook, e, step);
      var t := WebhookSafety.StepTrace(cfg.markCoding, s.agent.webhook, e, step, s.agent.trace);
      s.(agent := s.agent.(webhook := w, trace := t), pc := if ok then s.pc else Idle)
    case Finish =>
      var pc := Finished(s.agent, s.pc.acked, s.pc.goal);
      s.(pc := pc, acks := if pc.AwaitAck? then s.acks + {pc.last} else s.acks)
    case Resume => s.(pc := AwaitEvents(s.pc.last))
    case GiveUp => s.(pc := Idle)
    case RestartAgent(cutInbox, cutLedger) =>
      var (a, pc) := Reopened(cfg, s.agent, cutInbox, cutLedger);
      s.(agent := a, pc := pc)
  }
}
