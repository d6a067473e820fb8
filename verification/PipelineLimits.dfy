/**
 What the pipeline's progress depends on: in every run the inbox stays within its capacity and no
 processor's durable cursor passes an event it cannot handle, so the history can be acknowledged
 to its end exactly if the inbox has space for it and the processors can handle all of it.
 */
module PipelineLimits {
  import opened Basics
  import opened RecordLog
  import opened Envelopes
  import Outbox
  import Inbox
  import InboxSafety
  import InboxAnswers
  import Stats
  import Webhook
  import WebhookSafety
  import opened Pipeline
  import opened PipelineSafety
  import opened PipelineProgress

  // ---- Capacity of the inbox ----

  /** The inbox's file is within the capacity, an unfinished record included. */
  ghost predicate Capacity(cfg: Config, h: seq<Envelope>, m: Inbox.Mem, d: Inbox.Disk) {
    InboxAnswers.Within(cfg.coding, cfg.inboxMax, h, m.last, d)
  }

  lemma CapacityGrows(cfg: Config, h: seq<Envelope>, h': seq<Envelope>, a: Agent)
    requires Tracking(cfg, h, a) && Capacity(cfg, h, a.mem, a.disk)
    requires h' == h || (h' != [] && h' == h + [h'[|h'| - 1]])
    ensures Capacity(cfg, h', a.mem, a.disk)
  {
    if h' != h {
      InboxAnswers.GrowsWithin(cfg.coding, cfg.inboxMax, h, h'[|h'| - 1], a.mem, a.disk);
    }
  }

  lemma CapacityFresh(cfg: Config, h: seq<Envelope>, m: Inbox.Mem, d: Inbox.Disk)
    requires m.last == 0 || m.last == d.baseline
    requires d.log == []
    ensures Capacity(cfg, h, m, d)
  {
    if d.baseline <= m.last <= |h| {
      assert h[d.baseline..m.last] == [];
    }
  }

  /** What a step of the server does to its history. */
  lemma ServerGrows(cfg: Config, s: Sys, act: Action)
    requires Inv(cfg, s) && Enabled(cfg, s, act) && (act.Append? || act.RestartServer? || act.HandleAck?)
    ensures var h, h' := s.server.trace.hist, Do(cfg, s, act).server.trace.hist;
            h' == h || (h' != [] && h' == h + [h'[|h'| - 1]])
    ensures Do(cfg, s, act).agent == s.agent
  {
    hide Inv, ServerOk, Settled, Fresh;
    ServerInOrder(cfg, s);
    match act
    case Append(id, kind, now, payload, p, fault) => AppendServer(cfg, s.server, id, kind, now, payload, p, fault);
    case RestartServer(cut) =>
    case HandleAck(sequence, fault) => AckServer(cfg, s.server, sequence, fault);
  }

  lemma FreshCapacity(cfg: Config, s: Sys, act: Action)
    requires Inv(cfg, s) && Fresh(cfg, s) && Enabled(cfg, s, act)
    ensures var s' := Do(cfg, s, act); Capacity(cfg, s'.server.trace.hist, s'.agent.mem, s'.agent.disk)
  {
    var s' := Do(cfg, s, act);
    if act.RestartAgent? {
      assert act.cutInbox == 0;
      assert s.agent.disk.log[..0] == [];
      OpenEmpty(cfg, s.agent.disk.baseline);
    }
    CapacityFresh(cfg, s'.server.trace.hist, s'.agent.mem, s'.agent.disk);
  }

  lemma AcceptingInbox(cfg: Config, s: Sys, acked: nat, events: seq<Envelope>, k: nat)
    requires Settled(cfg, s) && s.pc == Accepting(acked, events, k) && k < |events|
    ensures var h, m := s.server.trace.hist, s.agent.mem;
            && InboxSafety.Inv(cfg.coding, h, m, s.agent.disk) && !m.failed && m.baseline <= acked + k < |h| && acked + k <= m.last
            && events[k] == h[acked + k]
  {
    EventAt(s.server.trace.hist, acked, events, k);
  }

  lemma AcceptedInbox(cfg: Config, a: Agent, acked: nat, events: seq<Envelope>, k: nat, fault: WriteFault)
    requires k < |events|
    ensures var (m, d, _) := Inbox.AcceptOne(cfg.coding, cfg.inboxMax, a.mem, a.disk, events[k], fault);
            Accepted(cfg, a, acked, events, k, fault).0 == a.(mem := m, disk := d)
  {
  }

  lemma AcceptCapacity(cfg: Config, s: Sys, acked: nat, events: seq<Envelope>, k: nat, fault: WriteFault)
    requires ServerOk(cfg, s.server) && Settled(cfg, s) && s.pc == Accepting(acked, events, k) && k < |events|
    requires Capacity(cfg, s.server.trace.hist, s.agent.mem, s.agent.disk)
    ensures var a := Accepted(cfg, s.agent, acked, events, k, fault).0;
            Capacity(cfg, s.server.trace.hist, a.mem, a.disk)
  {
    AcceptingInbox(cfg, s, acked, events, k);
    AcceptedInbox(cfg, s.agent, acked, events, k, fault);
    hide InboxSafety.Inv, InboxAnswers.Within, Inbox.AcceptOne, Accepted, Settled, ServerOk;
    InboxAnswers.AcceptWithin(cfg.coding, cfg.inboxMax, s.server.trace.hist, s.agent.mem, s.agent.disk, acked + k, fault);
  }

  lemma ReopenCapacity(cfg: Config, h: seq<Envelope>, a: Agent, cutInbox: nat, cutLedger: nat)
    requires Tracking(cfg, h, a) && a.mem.bytes <= cutInbox <= |a.disk.log| && cutLedger <= |a.webhook.log|
    requires Capacity(cfg, h, a.mem, a.disk)
    ensures var a' := Reopened(cfg, a, cutInbox, cutLedger).0;
            Capacity(cfg, h, a'.mem, a'.disk)
  {
    InboxAnswers.RestartWithin(cfg.coding, cfg.inboxMax, h, a.mem.last, a.disk, cutInbox);
  }

  lemma StepCapacity(cfg: Config, s: Sys, act: Action)
    requires Inv(cfg, s) && Enabled(cfg, s, act) && Capacity(cfg, s.server.trace.hist, s.agent.mem, s.agent.disk)
    ensures var s' := Do(cfg, s, act); Capacity(cfg, s'.server.trace.hist, s'.agent.mem, s'.agent.disk)
  {
    if Fresh(cfg, s) {
      FreshCapacity(cfg, s, act);
    } else if act.Append? || act.RestartServer? || act.HandleAck? {
      ServerGrows(cfg, s, act);
      CapacityGrows(cfg, s.server.trace.hist, Do(cfg, s, act).server.trace.hist, s.agent);
    } else if act.AcceptNext? {
      AcceptCapacity(cfg, s, s.pc.acked, s.pc.events, s.pc.k, act.acceptFault);
    } else if act.RestartAgent? {
      ReopenCapacity(cfg, s.server.trace.hist, s.agent, act.cutInbox, act.cutLedger);
    } else {
      QuietCapacity(cfg, s, act);
    }
  }

  lemma QuietCapacity(cfg: Config, s: Sys, act: Action)
    requires Inv(cfg, s) && Settled(cfg, s) && Enabled(cfg, s, act)
    requires !act.Append? && !act.RestartServer? && !act.HandleAck? && !act.AcceptNext? && !act.RestartAgent?
    ensures var s' := Do(cfg, s, act);
            s'.server == s.server && s'.agent.mem == s.agent.mem && s'.agent.disk == s.agent.disk
  {
  }

  // ---- What the processors have passed ----

  predicate Countable(rules: Stats.Rules, e: Envelope) {
    rules.isMatch(e) ==> rules.decodes(e)
  }

  /** Behind the durable cursors every match decodes and every event converts. */
  ghost predicate Digested(cfg: Config, h: seq<Envelope>, stats: nat, webhook: nat) {
    && (forall i :: cfg.start <= i < stats && i < |h| ==> Countable(cfg.stats, h[i]))
    && (forall i :: cfg.start <= i < webhook && i < |h| ==> !cfg.webhook.convert(h[i]).Broken?)
  }

  ghost predicate Passable(cfg: Config, s: Sys) {
    Digested(cfg, s.server.trace.hist, StatsReached(cfg, s.agent), WebhookReached(cfg, s.agent))
  }

  /** A processor passes one event at a time, and only one it can handle. */
  lemma CountPasses(cfg: Config, h: seq<Envelope>, st: Stats.State, fault: Stats.Fault, webhook: nat)
    requires DistinctIds(h) && Stats.Inv(cfg.stats, h, cfg.start, st) && Digested(cfg, h, Stats.Reached(st, cfg.start), webhook)
    requires cfg.start <= st.cursor < |h| && h[st.cursor].id != "" && h[st.cursor].sequence == st.cursor + 1
    ensures Digested(cfg, h, Stats.Reached(Stats.Handle(cfg.stats, st, h[st.cursor], fault).0, cfg.start), webhook)
  {
    var st' := Stats.Handle(cfg.stats, st, h[st.cursor], fault).0;
    Stats.HandleKeeps(cfg.stats, h, cfg.start, st, fault);
    assert st' == st || Countable(cfg.stats, h[st.cursor]);
  }

  lemma NotifyPasses(cfg: Config, h: seq<Envelope>, a: Agent, step: Webhook.Step, stats: nat)
    requires WebhookSafety.Identified(cfg.markCoding, cfg.webhook, h) && Tracking(cfg, h, a)
    requires cfg.start <= a.webhook.cursor < a.mem.last && Digested(cfg, h, stats, WebhookReached(cfg, a))
    requires Webhook.Enabled(cfg.webhook, a.webhook, h[a.webhook.cursor], step)
    ensures Digested(cfg, h, stats, WebhookSafety.Reached(Webhook.Apply(cfg.markCoding, a.webhook, h[a.webhook.cursor], step).0, cfg.start))
  {
    WebhookSafety.StepKeeps(cfg.markCoding, cfg.webhook, h, cfg.start, a.webhook, a.trace, step);
    hide *;
    CursorsBehind(cfg, h, a);
    StepConverts(cfg, a.webhook, h[a.webhook.cursor], step);
    DigestedOn(cfg, h, stats, WebhookReached(cfg, a), a.webhook.cursor,
               WebhookSafety.Reached(Webhook.Apply(cfg.markCoding, a.webhook, h[a.webhook.cursor], step).0, cfg.start));
  }

  lemma StepConverts(cfg: Config, w: Webhook.State, e: Envelope, step: Webhook.Step)
    requires Webhook.Enabled(cfg.webhook, w, e, step)
    ensures !cfg.webhook.convert(e).Broken?
  {
  }

  lemma DigestedOn(cfg: Config, h: seq<Envelope>, stats: nat, r: nat, cursor: nat, r': nat)
    requires Digested(cfg, h, stats, r) && cursor <= r && cursor < |h| && !cfg.webhook.convert(h[cursor]).Broken? && r' <= Max(r, cursor + 1)
    ensures Digested(cfg, h, stats, r')
  {
  }

  lemma ProcessorPasses(cfg: Config, s: Sys, act: Action)
    requires Inv(cfg, s) && Enabled(cfg, s, act) && Passable(cfg, s) && (act.Count? || act.Notify?)
    ensures Passable(cfg, Do(cfg, s, act))
  {
    AgentProcessing(cfg, s);
    if act.Count? {
      NextIsHistory(cfg, s.server.trace.hist, s.agent, s.agent.stats.cursor);
      CountPasses(cfg, s.server.trace.hist, s.agent.stats, act.statsFault, WebhookReached(cfg, s.agent));
    } else {
      NextIsHistory(cfg, s.server.trace.hist, s.agent, s.agent.webhook.cursor);
      NotifyPasses(cfg, s.server.trace.hist, s.agent, act.step, StatsReached(cfg, s.agent));
    }
  }

  /** No cursor is beyond the history. */
  lemma ReachedWithin(cfg: Config, s: Sys)
    requires Inv(cfg, s)
    ensures StatsReached(cfg, s.agent) <= |s.server.trace.hist| && WebhookReached(cfg, s.agent) <= |s.server.trace.hist|
  {
  }

  lemma RestartPasses(cfg: Config, s: Sys, cutInbox: nat, cutLedger: nat)
    requires Inv(cfg, s) && Enabled(cfg, s, RestartAgent(cutInbox, cutLedger))
    ensures var s' := Do(cfg, s, RestartAgent(cutInbox, cutLedger));
            StatsReached(cfg, s'.agent) == StatsReached(cfg, s.agent) && WebhookReached(cfg, s'.agent) == WebhookReached(cfg, s.agent)
  {
    if Fresh(cfg, s) {
      ReopenFresh(cfg, s.agent, s.agent.disk.baseline);
    } else {
      ReopenTracking(cfg, s.server.trace.hist, s.agent, cutInbox, cutLedger);
    }
  }

  lemma StepPasses(cfg: Config, s: Sys, act: Action)
    requires Inv(cfg, s) && Enabled(cfg, s, act) && Passable(cfg, s)
    ensures Passable(cfg, Do(cfg, s, act))
  {
    if act.Append? || act.RestartServer? || act.HandleAck? {
      ServerGrows(cfg, s, act);
      ReachedWithin(cfg, s);
    } else if act.Count? || act.Notify? {
      ProcessorPasses(cfg, s, act);
    } else if act.RestartAgent? {
      RestartPasses(cfg, s, act.cutInbox, act.cutLedger);
    } else {
      QuietPasses(cfg, s, act);
    }
  }

  lemma QuietPasses(cfg: Config, s: Sys, act: Action)
    requires Enabled(cfg, s, act) && !act.Count? && !act.Notify? && !act.RestartAgent?
    requires !act.Append? && !act.RestartServer? && !act.HandleAck?
    ensures var s' := Do(cfg, s, act);
            s'.server == s.server && s'.agent.stats == s.agent.stats && s'.agent.webhook == s.agent.webhook
  {
  }

  // ---- Every run ----

  ghost predicate Limits(cfg: Config, s: Sys) {
    match s
    case Sys(v, a, _, _) => Inv(cfg, s) && Capacity(cfg, v.trace.hist, a.mem, a.disk) && Passable(cfg, s)
  }

  lemma InitLimits(cfg: Config, s: Sys)
    requires Init(cfg, s)
    ensures Limits(cfg, s)
  {
    InitInv(cfg, s);
    CapacityFresh(cfg, s.server.trace.hist, s.agent.mem, s.agent.disk);
  }

  lemma StepLimits(cfg: Config, s: Sys, act: Action)
    requires Limits(cfg, s) && Enabled(cfg, s, act)
    ensures Limits(cfg, Do(cfg, s, act))
  {
    StepKeeps(cfg, s, act);
    StepCapacity(cfg, s, act);
    StepPasses(cfg, s, act);
  }

  lemma NextLimits(cfg: Config, s: Sys, act: Action, s': Sys)
    requires Limits(cfg, s) && Next(cfg, s, act, s')
    ensures Limits(cfg, s')
  {
    StepLimits(cfg, s, act);
  }

  lemma RunNext(cfg: Config, states: seq<Sys>, acts: seq<Action>, i: nat)
    requires Run(cfg, states, acts) && 0 < i < |states|
    ensures |states| == |acts| + 1 && Next(cfg, states[i - 1], acts[i - 1], states[i])
  {
  }

  lemma {:induction false} RunLimits(cfg: Config, states: seq<Sys>, acts: seq<Action>, i: nat)
    requires Run(cfg, states, acts) && 0 < |states| && Init(cfg, states[0]) && i < |states|
    ensures Limits(cfg, states[i])
    decreases i
  {
    hide *;
    if i == 0 {
      InitLimits(cfg, states[0]);
    } else {
      RunLimits(cfg, states, acts, i - 1);
      RunNext(cfg, states, acts, i);
      NextLimits(cfg, states[i - 1], acts[i - 1], states[i]);
    }
  }

  lemma {:induction false} LeadsLimits(cfg: Config, way: Way, s: Sys, acts: seq<Action>, s': Sys)
    requires Limits(cfg, s) && Leads(cfg, way, s, acts, s')
    ensures Limits(cfg, s')
    decreases |acts|
  {
    if acts != [] {
      StepLimits(cfg, s, acts[0]);
      LeadsLimits(cfg, way, Do(cfg, s, acts[0]), acts[1..], s');
    }
  }

  /** In every run the inbox's counted bytes and its file, whatever a crash leaves in it, are within the capacity. */
  lemma InboxWithinCapacity(cfg: Config, states: seq<Sys>, acts: seq<Action>, i: nat)
    requires Run(cfg, states, acts) && Init(cfg, states[0]) && i < |states|
    ensures states[i].agent.mem.bytes <= cfg.inboxMax && |states[i].agent.disk.log| <= cfg.inboxMax
  {
    RunLimits(cfg, states, acts, i);
    WithinCapacity(cfg, states[i]);
  }

  lemma WithinCapacity(cfg: Config, s: Sys)
    requires Limits(cfg, s)
    ensures s.agent.mem.bytes <= cfg.inboxMax && |s.agent.disk.log| <= cfg.inboxMax
  {
  }

  // ---- Exactly what can be acknowledged ----

  /** What is acknowledged to its end has fitted the inbox and passed both processors. */
  lemma AcknowledgedFits(cfg: Config, s: Sys)
    requires Limits(cfg, s) && s.server.mem.acked == |s.server.trace.hist|
    ensures Decent(cfg, s.server.trace.hist) && Roomy(cfg, s.server.trace.hist)
  {
    var h := s.server.trace.hist;
    if cfg.start < |h| {
      AcknowledgedThrough(cfg, s);
      FitsThrough(cfg, h, s.agent.mem.last, s.agent.disk);
    } else {
      assert h[cfg.start..] == [];
    }
  }

  lemma AcknowledgedThrough(cfg: Config, s: Sys)
    requires Limits(cfg, s) && cfg.start < s.server.mem.acked == |s.server.trace.hist|
    ensures var h := s.server.trace.hist;
            && Digested(cfg, h, |h|, |h|) && s.agent.mem.last == |h| && s.agent.disk.baseline == cfg.start
            && InboxAnswers.Within(cfg.coding, cfg.inboxMax, h, |h|, s.agent.disk)
  {
    AckedSafe(cfg, s, |s.server.trace.hist|);
  }

  lemma FitsThrough(cfg: Config, h: seq<Envelope>, last: nat, d: Inbox.Disk)
    requires Digested(cfg, h, |h|, |h|) && last == |h| && d.baseline == cfg.start && InboxAnswers.Within(cfg.coding, cfg.inboxMax, h, |h|, d)
    ensures Decent(cfg, h) && Roomy(cfg, h)
  {
    if cfg.start <= |h| {
      assert h[cfg.start..|h|] == h[cfg.start..];
    }
  }

  /** A state in which the same history is acknowledged to its end can follow. */
  ghost predicate Acknowledgeable(cfg: Config, way: Way, s: Sys) {
    exists s' :: Reaches(cfg, way, s, s') && s'.server.trace.hist == s.server.trace.hist && s'.server.mem.acked == |s'.server.trace.hist|
  }

  lemma AcknowledgeableFits(cfg: Config, way: Way, s: Sys)
    requires Limits(cfg, s) && Acknowledgeable(cfg, way, s)
    ensures Decent(cfg, s.server.trace.hist) && Roomy(cfg, s.server.trace.hist)
  {
    var s' :| Reaches(cfg, way, s, s') && s'.server.trace.hist == s.server.trace.hist && s'.server.mem.acked == |s'.server.trace.hist|;
    var acts :| Leads(cfg, way, s, acts, s');
    LeadsLimits(cfg, way, s, acts, s');
    AcknowledgedFits(cfg, s');
  }

  /**
   From the last state of any run, whatever has happened in it, the server can still have its whole history
   acknowledged, by restarts of the Agent and steps in which nothing fails, if and only if the processors can handle
   all of it and the inbox has space for it; if not, then no steps whatever lead there.
   */
  lemma AcknowledgeableExactly(cfg: Config, states: seq<Sys>, acts: seq<Action>, way: Way)
    requires Run(cfg, states, acts) && Init(cfg, states[0]) && !way.Smooth?
    ensures var s := states[|acts|];
            Acknowledgeable(cfg, way, s) <==> Decent(cfg, s.server.trace.hist) && Roomy(cfg, s.server.trace.hist)
  {
    var s := states[|acts|];
    RunLimits(cfg, states, acts, |acts|);
    if Decent(cfg, s.server.trace.hist) && Roomy(cfg, s.server.trace.hist) {
      var s' := Recovers(cfg, s);
      ReachesAnyhow(cfg, way, s, s');
    }
    if Acknowledgeable(cfg, way, s) {
      AcknowledgeableFits(cfg, way, s);
    }
  }

  lemma ReachesAnyhow(cfg: Config, way: Way, s: Sys, s': Sys)
    requires Reaches(cfg, Restarting, s, s') && !way.Smooth?
    ensures Reaches(cfg, way, s, s')
  {
    var acts :| Leads(cfg, Restarting, s, acts, s');
    if way.Anyhow? {
      LeadsToo(cfg, s, acts, s', Restarting, way);
    }
  }
}
