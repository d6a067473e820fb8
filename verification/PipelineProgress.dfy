/**
 The pipeline moves: when nothing fails, a connected Agent takes in what the server serves, processes
 it and acknowledges it, until everything is acknowledged.
 */
module PipelineProgress {
  import opened Basics
  import opened RecordLog
  import opened Envelopes
  import Outbox
  import OutboxSafety
  import OutboxAnswers
  import Inbox
  import InboxSafety
  import InboxAnswers
  import Stats
  import Ledger
  import Webhook
  import WebhookSafety
  import opened Pipeline
  import opened PipelineSafety

  // ---- Paths ----

  /**
   Which steps a path may take. Smooth: nothing new comes in, no file fails, and every target takes its delivery;
   restarting: the Agent may also start over; otherwise any.
   */
  datatype Way = Smooth | Restarting | Anyhow

  predicate Allowed(way: Way, act: Action) {
    match act
    case Append(_, _, _, _, _, _) => way.Anyhow?
    case RestartServer(_) => way.Anyhow?
    case GiveUp => !way.Smooth?
    case RestartAgent(_, _) => !way.Smooth?
    case Greet(fault) => fault.NoBaselineFault? || way.Anyhow?
    case AcceptNext(fault) => fault.NoFault? || way.Anyhow?
    case Count(fault) => fault.NoFault? || way.Anyhow?
    case Notify(step) => Fine(step) || way.Anyhow?
    case HandleAck(_, fault) => fault.NoAckFault? || way.Anyhow?
    case _ => true
  }

  predicate Fine(step: Webhook.Step) {
    match step
    case Deliver(_, outcome, fault) => outcome.Delivered? && fault.NoFault?
    case Pass(fault, _, rewrite) => fault.CursorWritten? && !rewrite.failed
  }

  /** From one state to another by a sequence of enabled steps of the given kind. */
  ghost predicate Leads(cfg: Config, way: Way, s: Sys, acts: seq<Action>, s': Sys)
    decreases |acts|
  {
    if acts == [] then s == s'
    else Allowed(way, acts[0]) && Enabled(cfg, s, acts[0]) && Leads(cfg, way, Do(cfg, s, acts[0]), acts[1..], s')
  }

  /** One state can follow upon another. */
  ghost predicate Reaches(cfg: Config, way: Way, s: Sys, s': Sys) {
    exists acts :: Leads(cfg, way, s, acts, s')
  }

  lemma ReachesNow(cfg: Config, way: Way, s: Sys)
    ensures Reaches(cfg, way, s, s)
  {
    assert Leads(cfg, way, s, [], s);
  }

  lemma ReachesNext(cfg: Config, way: Way, s: Sys, act: Action)
    requires Enabled(cfg, s, act) && Allowed(way, act)
    ensures Reaches(cfg, way, s, Do(cfg, s, act))
  {
    assert [act][1..] == [];
    assert Leads(cfg, way, s, [act], Do(cfg, s, act));
  }

  lemma ReachesOn(cfg: Config, way: Way, s: Sys, s1: Sys, s2: Sys)
    requires Reaches(cfg, way, s, s1) && Reaches(cfg, way, s1, s2)
    ensures Reaches(cfg, way, s, s2)
  {
    var acts :| Leads(cfg, way, s, acts, s1);
    var more :| Leads(cfg, way, s1, more, s2);
    LeadsOn(cfg, way, s, acts, s1, more, s2);
  }

  lemma {:induction false} LeadsOn(cfg: Config, way: Way, s: Sys, acts: seq<Action>, s1: Sys, more: seq<Action>, s2: Sys)
    requires Leads(cfg, way, s, acts, s1) && Leads(cfg, way, s1, more, s2)
    ensures Leads(cfg, way, s, acts + more, s2)
    decreases |acts|
  {
    if acts == [] {
      assert acts + more == more;
    } else {
      assert (acts + more)[1..] == acts[1..] + more;
      LeadsOn(cfg, way, Do(cfg, s, acts[0]), acts[1..], s1, more, s2);
    }
  }

  lemma {:induction false} LeadsToo(cfg: Config, s: Sys, acts: seq<Action>, s': Sys, way: Way, way': Way)
    requires Leads(cfg, way, s, acts, s') && (way.Smooth? || way'.Anyhow?)
    ensures Leads(cfg, way', s, acts, s')
    decreases |acts|
  {
    if acts != [] {
      LeadsToo(cfg, Do(cfg, s, acts[0]), acts[1..], s', way, way');
    }
  }

  lemma ReachesToo(cfg: Config, s: Sys, s': Sys)
    requires Reaches(cfg, Smooth, s, s')
    ensures Reaches(cfg, Restarting, s, s')
  {
    var acts :| Leads(cfg, Smooth, s, acts, s');
    LeadsToo(cfg, s, acts, s', Smooth, Restarting);
  }

  lemma {:induction false} RunAlong(cfg: Config, way: Way, states: seq<Sys>, past: seq<Action>, acts: seq<Action>, s': Sys)
    returns (states': seq<Sys>, all: seq<Action>)
    requires Run(cfg, states, past) && Leads(cfg, way, states[|past|], acts, s')
    ensures Run(cfg, states', all) && states <= states' && past <= all && states'[|all|] == s'
    decreases |acts|
  {
    if acts == [] {
      return states, past;
    }
    var next := Do(cfg, states[|past|], acts[0]);
    assert Next(cfg, states[|past|], acts[0], next);
    states', all := RunAlong(cfg, way, states + [next], past + [acts[0]], acts[1..], s');
  }

  /** A run can go on to any state that can follow upon its last. */
  lemma RunOn(cfg: Config, way: Way, states: seq<Sys>, past: seq<Action>, s': Sys) returns (states': seq<Sys>, all: seq<Action>)
    requires Run(cfg, states, past) && Reaches(cfg, way, states[|past|], s')
    ensures Run(cfg, states', all) && states <= states' && past <= all && states'[|all|] == s'
  {
    var acts :| Leads(cfg, way, states[|past|], acts, s');
    states', all := RunAlong(cfg, way, states, past, acts, s');
  }

  // ---- Where nothing is in the way ----

  /** Every match decodes and every event converts. */
  ghost predicate Decent(cfg: Config, h: seq<Envelope>) {
    forall i :: cfg.start <= i < |h| ==> (cfg.stats.isMatch(h[i]) ==> cfg.stats.decodes(h[i])) && !cfg.webhook.convert(h[i]).Broken?
  }

  /** Server and Agent are in order, the inbox works, and the processors stand inside it. */
  ghost predicate Well(cfg: Config, s: Sys) {
    match s.agent.mem
    case Mem(_, _, _, _, true) => false
    case Mem(last, _, _, _, false) =>
      && ServerOk(cfg, s.server) && Tracking(cfg, s.server.trace.hist, s.agent) && Decent(cfg, s.server.trace.hist)
      && cfg.start <= s.agent.stats.cursor <= last && cfg.start <= s.agent.webhook.cursor <= last
  }

  // ---- Taking in a batch ----

  /** The Agent is taking in the events behind what was acknowledged and has come to position k. */
  ghost predicate Accepts(cfg: Config, s: Sys, acked: nat, events: seq<Envelope>, k: nat) {
    match s.pc
    case Accepting(a, es, j) =>
      && a == acked && es == events && j == k && Well(cfg, s)
      && k < |events| && cfg.start <= acked && Stretch(s.server.trace.hist, acked, events)
      && InboxAnswers.Taking(cfg.coding, cfg.inboxMax, s.server.trace.hist, s.agent.mem, s.agent.disk, acked, k, |events|)
    case _ => false
  }

  /** The Agent has a batch up to sequence n in its inbox and is processing it. */
  ghost predicate Processes(cfg: Config, s: Sys, n: nat) {
    match s.pc
    case Processing(_, Some(goal)) => goal == n && Well(cfg, s) && n <= s.agent.mem.last
    case _ => false
  }

  lemma WellInbox(cfg: Config, s: Sys, m: Inbox.Mem, d: Inbox.Disk, pc: Pc)
    requires Well(cfg, s) && Tracking(cfg, s.server.trace.hist, s.agent.(mem := m, disk := d)) && !m.failed && s.agent.mem.last <= m.last
    ensures Well(cfg, s.(agent := s.agent.(mem := m, disk := d), pc := pc))
  {
  }

  lemma AcceptedNext(cfg: Config, s: Sys, acked: nat, events: seq<Envelope>, k: nat, r: (Inbox.Mem, Inbox.Disk, Inbox.Outcome), pc: Pc)
    requires Accepts(cfg, s, acked, events, k)
    requires r == Inbox.AcceptOne(cfg.coding, cfg.inboxMax, s.agent.mem, s.agent.disk, events[k], NoFault)
    requires pc == if k + 1 < |events| then Accepting(acked, events, k + 1) else Processing(acked, Some(acked + |events|))
    ensures Enabled(cfg, s, AcceptNext(NoFault))
    ensures var s' := s.(agent := s.agent.(mem := r.0, disk := r.1), pc := pc);
            && Do(cfg, s, AcceptNext(NoFault)) == s'
            && (if k + 1 < |events| then Accepts(cfg, s', acked, events, k + 1) else Processes(cfg, s', acked + |events|))
  {
    var h, a := s.server.trace.hist, s.agent;
    EventAt(h, acked, events, k);
    InboxAnswers.NextTaken(cfg.coding, cfg.inboxMax, h, a.mem, a.disk, events[k], acked, k, |events|, NoFault, r);
    EventTracked(cfg, h, a, events[k], acked + k, r);
    WellInbox(cfg, s, r.0, r.1, pc);
  }

  lemma EventTracked(cfg: Config, h: seq<Envelope>, a: Agent, e: Envelope, i: nat, r: (Inbox.Mem, Inbox.Disk, Inbox.Outcome))
    requires Tracking(cfg, h, a) && !a.mem.failed && cfg.start <= i < |h| && i <= a.mem.last && e == h[i]
    requires r == Inbox.AcceptOne(cfg.coding, cfg.inboxMax, a.mem, a.disk, e, NoFault) && r.2.Accepted?
    ensures Tracking(cfg, h, a.(mem := r.0, disk := r.1)) && !r.0.failed && a.mem.last <= r.0.last && i < r.0.last && e.sequence == i + 1
  {
    AcceptEvent(cfg, h, a, e, i, NoFault, r.0, r.1, r.2);
  }

  lemma {:induction false} AcceptAll(cfg: Config, s: Sys, acked: nat, events: seq<Envelope>, k: nat) returns (s': Sys)
    requires Accepts(cfg, s, acked, events, k) && k < |events|
    ensures Reaches(cfg, Smooth, s, s') && s' == s.(agent := s'.agent, pc := s'.pc) && Processes(cfg, s', acked + |events|)
    decreases |events| - k
  {
    var r := Inbox.AcceptOne(cfg.coding, cfg.inboxMax, s.agent.mem, s.agent.disk, events[k], NoFault);
    var pc := if k + 1 < |events| then Accepting(acked, events, k + 1) else Processing(acked, Some(acked + |events|));
    AcceptedNext(cfg, s, acked, events, k, r, pc);
    ReachesNext(cfg, Smooth, s, AcceptNext(NoFault));
    s' := s.(agent := s.agent.(mem := r.0, disk := r.1), pc := pc);
    if k + 1 < |events| {
      var s1 := s';
      s' := AcceptAll(cfg, s1, acked, events, k + 1);
      ReachesOn(cfg, Smooth, s, s1, s');
    }
  }

  // ---- Running the processors ----

  lemma CountedNext(cfg: Config, s: Sys)
    requires Well(cfg, s) && s.pc.Processing? && s.agent.stats.cursor < s.agent.mem.last
    ensures Enabled(cfg, s, Count(Stats.NoFault))
    ensures var s' := Do(cfg, s, Count(Stats.NoFault));
            && Well(cfg, s') && s' == s.(agent := s'.agent)
            && s'.agent == s.agent.(stats := s'.agent.stats) && s'.agent.stats.cursor == s.agent.stats.cursor + 1
  {
    var h, a := s.server.trace.hist, s.agent;
    NextIsHistory(cfg, h, a, a.stats.cursor);
    CountAgent(cfg, h, a, Stats.NoFault);
    Stats.HandleAnswers(cfg.stats, a.stats, h[a.stats.cursor], Stats.NoFault);
  }

  lemma {:induction false} CountAll(cfg: Config, s: Sys, n: nat) returns (s': Sys)
    requires Processes(cfg, s, n)
    ensures Reaches(cfg, Smooth, s, s') && s' == s.(agent := s'.agent, pc := s'.pc) && Processes(cfg, s', n)
    ensures s'.agent == s.agent.(stats := s'.agent.stats) && s'.agent.stats.cursor == s.agent.mem.last
    decreases s.agent.mem.last - s.agent.stats.cursor
  {
    if s.agent.stats.cursor == s.agent.mem.last {
      ReachesNow(cfg, Smooth, s);
      return s;
    }
    CountedNext(cfg, s);
    ReachesNext(cfg, Smooth, s, Count(Stats.NoFault));
    var s1 := Do(cfg, s, Count(Stats.NoFault));
    s' := CountAll(cfg, s1, n);
    ReachesOn(cfg, Smooth, s, s1, s');
  }

  /** One step of the webhook processor on the event at its cursor. */
  lemma Notified(cfg: Config, s: Sys, step: Webhook.Step)
    requires Well(cfg, s) && s.pc.Processing? && s.agent.webhook.cursor < s.agent.mem.last
    requires Webhook.Enabled(cfg.webhook, s.agent.webhook, s.server.trace.hist[s.agent.webhook.cursor], step)
    requires Webhook.Apply(cfg.markCoding, s.agent.webhook, s.server.trace.hist[s.agent.webhook.cursor], step).1
    ensures Enabled(cfg, s, Notify(step))
    ensures var e := s.server.trace.hist[s.agent.webhook.cursor];
            var s' := Do(cfg, s, Notify(step));
            && s' == s.(agent := s.agent.(webhook := s'.agent.webhook, trace := s'.agent.trace))
            && s'.agent.webhook == Webhook.Apply(cfg.markCoding, s.agent.webhook, e, step).0
            && (cfg.start <= s'.agent.webhook.cursor <= s.agent.mem.last ==> Well(cfg, s'))
  {
    NextIsHistory(cfg, s.server.trace.hist, s.agent, s.agent.webhook.cursor);
    NotifyAgent(cfg, s.server.trace.hist, s.agent, step);
  }

  /** The first j targets of the event at the cursor are done. */
  ghost predicate DoneTo(cfg: Config, s: Sys, e: Envelope, j: nat) {
    forall i :: 0 <= i < j && i < |Webhook.Targets(cfg.webhook, e)| ==> Ledger.Key(e.id, Webhook.Targets(cfg.webhook, e)[i]) in s.agent.webhook.entries
  }

  lemma DeliveredNext(cfg: Config, s: Sys, e: Envelope, j: nat) returns (s': Sys)
    requires Well(cfg, s) && s.pc.Processing? && s.agent.webhook.cursor < s.agent.mem.last
    requires e == s.server.trace.hist[s.agent.webhook.cursor] && j < |Webhook.Targets(cfg.webhook, e)| && DoneTo(cfg, s, e, j)
    ensures Reaches(cfg, Smooth, s, s') && Well(cfg, s') && s' == s.(agent := s'.agent) && DoneTo(cfg, s', e, j + 1)
    ensures s'.agent == s.agent.(webhook := s'.agent.webhook, trace := s'.agent.trace) && s'.agent.webhook.cursor == s.agent.webhook.cursor
  {
    var target := Webhook.Targets(cfg.webhook, e)[j];
    if Ledger.Key(e.id, target) in s.agent.webhook.entries {
      ReachesNow(cfg, Smooth, s);
      return s;
    }
    var step := Webhook.Deliver(target, Webhook.Delivered, NoFault);
    Webhook.DeliverAnswers(cfg.markCoding, s.agent.webhook, e, target, Webhook.Delivered, NoFault);
    Notified(cfg, s, step);
    ReachesNext(cfg, Smooth, s, Notify(step));
    s' := Do(cfg, s, Notify(step));
  }

  lemma {:induction false} DeliverRest(cfg: Config, s: Sys, e: Envelope, j: nat) returns (s': Sys)
    requires Well(cfg, s) && s.pc.Processing? && s.agent.webhook.cursor < s.agent.mem.last
    requires e == s.server.trace.hist[s.agent.webhook.cursor] && j <= |Webhook.Targets(cfg.webhook, e)| && DoneTo(cfg, s, e, j)
    ensures Reaches(cfg, Smooth, s, s') && Well(cfg, s') && s' == s.(agent := s'.agent)
    ensures DoneTo(cfg, s', e, |Webhook.Targets(cfg.webhook, e)|)
    ensures s'.agent == s.agent.(webhook := s'.agent.webhook, trace := s'.agent.trace) && s'.agent.webhook.cursor == s.agent.webhook.cursor
    decreases |Webhook.Targets(cfg.webhook, e)| - j
  {
    if j == |Webhook.Targets(cfg.webhook, e)| {
      ReachesNow(cfg, Smooth, s);
      return s;
    }
    var s1 := DeliveredNext(cfg, s, e, j);
    s' := DeliverRest(cfg, s1, e, j + 1);
    ReachesOn(cfg, Smooth, s, s1, s');
  }

  /** Some order in which a map may yield its keys. */
  lemma {:induction false} SomeOrder(keys: set<string>) returns (order: seq<string>)
    ensures forall k :: k in order <==> k in keys
    decreases |keys|
  {
    if keys == {} { return []; }
    var k :| k in keys;
    var rest := SomeOrder(keys - {k});
    order := [k] + rest;
  }

  lemma Passed(cfg: Config, s: Sys, e: Envelope) returns (s': Sys)
    requires Well(cfg, s) && s.pc.Processing? && s.agent.webhook.cursor < s.agent.mem.last
    requires e == s.server.trace.hist[s.agent.webhook.cursor] && DoneTo(cfg, s, e, |Webhook.Targets(cfg.webhook, e)|)
    ensures Reaches(cfg, Smooth, s, s') && Well(cfg, s') && s' == s.(agent := s'.agent)
    ensures s'.agent == s.agent.(webhook := s'.agent.webhook, trace := s'.agent.trace) && s'.agent.webhook.cursor == s.agent.webhook.cursor + 1
  {
    var order := SomeOrder(Ledger.Without(s.agent.webhook.entries, e.id).Keys);
    var step := Webhook.Pass(Webhook.CursorWritten, order, Ledger.RewriteFault(false, true));
    EventOk(cfg, s);
    assert Webhook.AllDone(cfg.webhook, s.agent.webhook, e);
    Notified(cfg, s, step);
    ReachesNext(cfg, Smooth, s, Notify(step));
    s' := Do(cfg, s, Notify(step));
  }

  lemma EventOk(cfg: Config, s: Sys)
    requires Well(cfg, s) && s.agent.webhook.cursor < s.agent.mem.last
    ensures s.agent.webhook.cursor < |s.server.trace.hist|
    ensures var e := s.server.trace.hist[s.agent.webhook.cursor];
            !cfg.webhook.convert(e).Broken? && e.sequence == s.agent.webhook.cursor + 1
  {
  }

  lemma {:induction false} NotifyAll(cfg: Config, s: Sys, n: nat) returns (s': Sys)
    requires Processes(cfg, s, n)
    ensures Reaches(cfg, Smooth, s, s') && s' == s.(agent := s'.agent, pc := s'.pc) && Processes(cfg, s', n)
    ensures s'.agent == s.agent.(webhook := s'.agent.webhook, trace := s'.agent.trace) && s'.agent.webhook.cursor == s.agent.mem.last
    decreases s.agent.mem.last - s.agent.webhook.cursor
  {
    if s.agent.webhook.cursor == s.agent.mem.last {
      ReachesNow(cfg, Smooth, s);
      return s;
    }
    EventOk(cfg, s);
    var e := s.server.trace.hist[s.agent.webhook.cursor];
    var s1 := DeliverRest(cfg, s, e, 0);
    var s2 := Passed(cfg, s1, e);
    s' := NotifyAll(cfg, s2, n);
    ReachesOn(cfg, Smooth, s, s1, s2);
    ReachesOn(cfg, Smooth, s, s2, s');
  }

  // ---- A round ----

  /** How much the server serves at once of what is not acknowledged. */
  function Served(acked: nat, latest: nat): nat {
    if latest <= acked then 0 else Min(BATCH, latest - acked)
  }

  /** The inbox can take what is not in it of the history up to a given sequence. */
  ghost predicate Space(cfg: Config, s: Sys, end: nat) {
    InboxAnswers.SpaceFor(cfg.coding, cfg.inboxMax, s.server.trace.hist, s.agent.mem, end)
  }

  /** The Agent waits for events behind what the server has acknowledged. */
  ghost predicate Polling(cfg: Config, s: Sys) {
    match s.pc
    case AwaitEvents(acked) => acked == s.server.mem.acked && Well(cfg, s) && acked <= s.agent.mem.last
    case _ => false
  }

  /** It is about to be served n events, and has space for them. */
  ghost predicate Fetching(cfg: Config, s: Sys, acked: nat, n: nat) {
    match s.pc
    case AwaitEvents(a) =>
      && a == acked == s.server.mem.acked && Well(cfg, s) && acked <= s.agent.mem.last
      && 0 < n == Served(acked, s.server.mem.latest) && Space(cfg, s, acked + n)
    case _ => false
  }

  lemma Answered(cfg: Config, s: Sys, acked: nat, n: nat) returns (events: seq<Envelope>)
    requires Fetching(cfg, s, acked, n)
    ensures s.pc == AwaitEvents(acked) && !s.agent.mem.failed && |events| == n && Stretch(s.server.trace.hist, acked, events)
    ensures Outbox.Events(s.server.mem, acked, BATCH) == Outbox.Batch(events, acked, s.server.mem.latest)
  {
    var v := s.server;
    OutboxAnswers.EventsServed(cfg.coding, cfg.max, v.trace, v.mem, v.disk, acked, BATCH);
    events := v.trace.hist[acked..acked + n];
  }

  lemma FetchSteps(cfg: Config, s: Sys, acked: nat, events: seq<Envelope>, s1: Sys, s2: Sys)
    requires s.pc == AwaitEvents(acked) && !s.agent.mem.failed && events != []
    requires Outbox.Events(s.server.mem, acked, BATCH) == Outbox.Batch(events, acked, s.server.mem.latest)
    requires s1 == s.(pc := GotEvents(acked, events)) && s2 == s.(pc := Accepting(acked, events, 0))
    ensures Enabled(cfg, s, AnswerEvents) && Do(cfg, s, AnswerEvents) == s1 && Enabled(cfg, s1, Receive) && Do(cfg, s1, Receive) == s2
  {
  }

  lemma WellPc(cfg: Config, s: Sys, pc: Pc)
    requires Well(cfg, s)
    ensures Well(cfg, s.(pc := pc))
  {
  }

  lemma TakingStarts(cfg: Config, s: Sys, acked: nat, n: nat)
    requires Fetching(cfg, s, acked, n) && acked + n <= |s.server.trace.hist|
    ensures InboxAnswers.Taking(cfg.coding, cfg.inboxMax, s.server.trace.hist, s.agent.mem, s.agent.disk, acked, 0, n)
    ensures cfg.start <= acked && Well(cfg, s)
  {
  }

  lemma FetchAccepts(cfg: Config, s: Sys, acked: nat, events: seq<Envelope>, s': Sys)
    requires Fetching(cfg, s, acked, |events|) && Stretch(s.server.trace.hist, acked, events)
    requires s' == s.(pc := Accepting(acked, events, 0)) && events != []
    ensures Accepts(cfg, s', acked, events, 0)
  {
    TakingStarts(cfg, s, acked, |events|);
    WellPc(cfg, s, s'.pc);
  }

  lemma Fetched(cfg: Config, s: Sys, acked: nat, n: nat) returns (s': Sys, events: seq<Envelope>)
    requires Fetching(cfg, s, acked, n) && n > 0
    ensures Reaches(cfg, Smooth, s, s') && s' == s.(agent := s'.agent, pc := s'.pc)
    ensures |events| == n && Accepts(cfg, s', acked, events, 0)
  {
    events := Answered(cfg, s, acked, n);
    var s1 := s.(pc := GotEvents(acked, events));
    s' := s.(pc := Accepting(acked, events, 0));
    FetchSteps(cfg, s, acked, events, s1, s');
    ReachesNext(cfg, Smooth, s, AnswerEvents);
    ReachesNext(cfg, Smooth, s1, Receive);
    ReachesOn(cfg, Smooth, s, s1, s');
    FetchAccepts(cfg, s, acked, events, s');
  }

  /** The batch is fetched, taken in and processed. */
  lemma Processed(cfg: Config, s: Sys, acked: nat, n: nat) returns (s': Sys)
    requires Fetching(cfg, s, acked, n) && n > 0
    ensures Reaches(cfg, Smooth, s, s') && s' == s.(agent := s'.agent, pc := s'.pc) && Processes(cfg, s', acked + n)
    ensures s'.agent.stats.cursor == s'.agent.webhook.cursor == s'.agent.mem.last
  {
    var s1, events := Fetched(cfg, s, acked, n);
    var s2 := AcceptAll(cfg, s1, acked, events, 0);
    var s3 := CountAll(cfg, s2, acked + n);
    s' := NotifyAll(cfg, s3, acked + n);
    ReachesOn(cfg, Smooth, s, s1, s2);
    ReachesOn(cfg, Smooth, s, s2, s3);
    ReachesOn(cfg, Smooth, s, s3, s');
  }

  lemma AckSteps(cfg: Config, s: Sys, n: nat, v: Server, s1: Sys, s2: Sys, s3: Sys)
    requires s.pc.Processing? && s.pc.goal == Some(n) && n <= s.agent.stats.cursor && n <= s.agent.webhook.cursor
    requires Acknowledged(cfg, s.server, n, Outbox.NoAckFault) == (v, Outbox.AckOk)
    requires s1 == s.(pc := AwaitAck(n), acks := s.acks + {n}) && s2 == s1.(server := v, pc := GotAck(n)) && s3 == s2.(pc := AwaitEvents(n))
    ensures Enabled(cfg, s, Finish) && Do(cfg, s, Finish) == s1
    ensures Enabled(cfg, s1, HandleAck(n, Outbox.NoAckFault)) && Do(cfg, s1, HandleAck(n, Outbox.NoAckFault)) == s2
    ensures Enabled(cfg, s2, Resume) && Do(cfg, s2, Resume) == s3
  {
  }

  lemma ServerTakes(cfg: Config, s: Sys, n: nat) returns (v: Server)
    requires Processes(cfg, s, n) && s.server.mem.acked < n
    ensures s.pc.Processing? && s.pc.goal == Some(n) && n <= s.agent.mem.last
    ensures Acknowledged(cfg, s.server, n, Outbox.NoAckFault) == (v, Outbox.AckOk)
    ensures v.mem.acked == n && v.trace.hist == s.server.trace.hist && v.mem.latest == s.server.mem.latest && ServerOk(cfg, v)
  {
    var u := s.server;
    OutboxAnswers.AckTakes(cfg.coding, cfg.max, u.trace, u.mem, u.disk, n, Outbox.NoAckFault);
    AckServer(cfg, u, n, Outbox.NoAckFault);
    v := Acknowledged(cfg, u, n, Outbox.NoAckFault).0;
  }

  lemma StillPolling(cfg: Config, s: Sys, n: nat, v: Server, s': Sys)
    requires Processes(cfg, s, n) && ServerOk(cfg, v) && v.trace.hist == s.server.trace.hist && v.mem.acked == n
    requires s'.agent == s.agent && s'.server == v && s'.pc == AwaitEvents(n)
    ensures Polling(cfg, s')
  {
  }

  lemma Acknowledges(cfg: Config, s: Sys, n: nat) returns (s': Sys)
    requires Processes(cfg, s, n) && s.agent.stats.cursor == s.agent.webhook.cursor == s.agent.mem.last && s.server.mem.acked < n
    ensures Reaches(cfg, Smooth, s, s') && Polling(cfg, s') && s' == s.(server := s'.server, pc := s'.pc, acks := s.acks + {n}) && s'.server.mem.acked == n
    ensures s'.server.trace.hist == s.server.trace.hist && s'.server.mem.latest == s.server.mem.latest
  {
    var v := ServerTakes(cfg, s, n);
    var s1 := s.(pc := AwaitAck(n), acks := s.acks + {n});
    var s2 := s1.(server := v, pc := GotAck(n));
    s' := s2.(pc := AwaitEvents(n));
    AckSteps(cfg, s, n, v, s1, s2, s');
    ReachesNext(cfg, Smooth, s, Finish);
    ReachesNext(cfg, Smooth, s1, HandleAck(n, Outbox.NoAckFault));
    ReachesNext(cfg, Smooth, s2, Resume);
    ReachesOn(cfg, Smooth, s, s1, s2);
    ReachesOn(cfg, Smooth, s, s2, s');
    StillPolling(cfg, s, n, v, s');
  }

  /** An Agent about to be served a batch it has space for acknowledges its last sequence, and the server takes it. */
  lemma RoundAcknowledges(cfg: Config, s: Sys, acked: nat, n: nat) returns (s': Sys)
    requires Fetching(cfg, s, acked, n)
    ensures Reaches(cfg, Smooth, s, s') && Polling(cfg, s') && s'.server.mem.acked == acked + n > acked
    ensures s'.acks == s.acks + {acked + n}
    ensures s'.server.trace.hist == s.server.trace.hist && s'.server.mem.latest == s.server.mem.latest
  {
    hide *;
    AboutToFetch(cfg, s, acked, n);
    var s1 := Processed(cfg, s, acked, n);
    s' := Acknowledges(cfg, s1, acked + n);
    ReachesOn(cfg, Smooth, s, s1, s');
  }

  lemma AboutToFetch(cfg: Config, s: Sys, acked: nat, n: nat)
    requires Fetching(cfg, s, acked, n)
    ensures n > 0 && s.server.mem.acked == acked
  {
  }

  // ---- All of it ----

  /** The inbox has space for the whole history behind where it started. */
  ghost predicate Roomy(cfg: Config, h: seq<Envelope>) {
    cfg.start <= |h| ==> |LogBytes(cfg.coding, h[cfg.start..])| <= cfg.inboxMax
  }

  lemma SpaceAlways(cfg: Config, h: seq<Envelope>, m: Inbox.Mem, d: Inbox.Disk, end: nat)
    requires InboxSafety.Inv(cfg.coding, h, m, d) && d.baseline == cfg.start && Roomy(cfg, h) && end <= |h|
    ensures InboxAnswers.SpaceFor(cfg.coding, cfg.inboxMax, h, m, end)
  {
    if m.last <= end {
      assert h[cfg.start..] == h[cfg.start..m.last] + h[m.last..end] + h[end..];
      LogBytesAppend(cfg.coding, h[cfg.start..m.last], h[m.last..end]);
      LogBytesAppend(cfg.coding, h[cfg.start..m.last] + h[m.last..end], h[end..]);
    }
  }

  lemma SpacePolling(cfg: Config, s: Sys, n: nat)
    requires Polling(cfg, s) && Roomy(cfg, s.server.trace.hist) && 0 < n == Served(s.server.mem.acked, s.server.mem.latest)
    ensures Fetching(cfg, s, s.server.mem.acked, n)
  {
    LatestIsLength(cfg, s);
    PollingInbox(cfg, s);
    hide Well, InboxSafety.Inv, InboxAnswers.SpaceFor, Roomy;
    SpaceAlways(cfg, s.server.trace.hist, s.agent.mem, s.agent.disk, s.server.mem.acked + n);
  }

  lemma PollingInbox(cfg: Config, s: Sys)
    requires Polling(cfg, s)
    ensures InboxSafety.Inv(cfg.coding, s.server.trace.hist, s.agent.mem, s.agent.disk) && s.agent.disk.baseline == cfg.start
  {
  }

  lemma LatestIsLength(cfg: Config, s: Sys)
    requires Polling(cfg, s)
    ensures s.server.mem.acked <= s.server.mem.latest == |s.server.trace.hist|
  {
  }

  /** Round by round a polling Agent with space for it all gets everything acknowledged. */
  lemma {:induction false} EverythingAcknowledged(cfg: Config, s: Sys) returns (s': Sys)
    requires Polling(cfg, s) && Roomy(cfg, s.server.trace.hist)
    ensures Reaches(cfg, Smooth, s, s') && Polling(cfg, s') && s'.server.trace.hist == s.server.trace.hist
    ensures s'.server.mem.acked == s'.server.mem.latest == |s.server.trace.hist|
    decreases s.server.mem.latest - s.server.mem.acked
  {
    LatestIsLength(cfg, s);
    if s.server.mem.acked == s.server.mem.latest {
      ReachesNow(cfg, Smooth, s);
      return s;
    }
    var n := Served(s.server.mem.acked, s.server.mem.latest);
    SpacePolling(cfg, s, n);
    var s1 := RoundAcknowledges(cfg, s, s.server.mem.acked, n);
    LatestIsLength(cfg, s1);
    s' := EverythingAcknowledged(cfg, s1);
    ReachesOn(cfg, Smooth, s, s1, s');
  }

  // ---- Getting there from anywhere ----

  /** What the server has acknowledged, a settled Agent has. */
  lemma AckedTaken(cfg: Config, s: Sys)
    requires ServerOk(cfg, s.server) && Settled(cfg, s)
    ensures s.server.mem.acked <= s.agent.mem.last
  {
  }

  lemma ConnectSteps(cfg: Config, s: Sys, acked: nat, s1: Sys, s2: Sys, s3: Sys)
    requires s.pc == Idle && acked == s.server.mem.acked <= s.agent.mem.last
    requires s1 == s.(pc := AwaitHandshake) && s2 == s.(pc := GotHandshake(acked)) && s3 == s.(pc := AwaitEvents(acked))
    ensures Enabled(cfg, s, Connect) && Do(cfg, s, Connect) == s1
    ensures Enabled(cfg, s1, AnswerHandshake) && Do(cfg, s1, AnswerHandshake) == s2
    ensures Enabled(cfg, s2, Greet(Inbox.NoBaselineFault)) && Do(cfg, s2, Greet(Inbox.NoBaselineFault)) == s3
  {
  }

  /** An Agent that is not connected connects and polls. */
  lemma Connects(cfg: Config, s: Sys) returns (s': Sys)
    requires s.pc == Idle && Well(cfg, s) && s.server.mem.acked <= s.agent.mem.last
    ensures Reaches(cfg, Smooth, s, s') && Polling(cfg, s') && s' == s.(pc := s'.pc)
  {
    var acked := s.server.mem.acked;
    var s1, s2 := s.(pc := AwaitHandshake), s.(pc := GotHandshake(acked));
    s' := s.(pc := AwaitEvents(acked));
    ConnectSteps(cfg, s, acked, s1, s2, s');
    ReachesNext(cfg, Smooth, s, Connect);
    ReachesNext(cfg, Smooth, s1, AnswerHandshake);
    ReachesNext(cfg, Smooth, s2, Greet(Inbox.NoBaselineFault));
    ReachesOn(cfg, Smooth, s, s1, s2);
    ReachesOn(cfg, Smooth, s, s2, s');
    WellPc(cfg, s, s'.pc);
  }

  /** The inbox works and no processor stands below it. */
  ghost predicate Awake(cfg: Config, a: Agent) {
    !a.mem.failed && cfg.start <= a.stats.cursor && cfg.start <= a.webhook.cursor
  }

  lemma AwakeWell(cfg: Config, s: Sys, pc: Pc)
    requires ServerOk(cfg, s.server) && Settled(cfg, s) && Awake(cfg, s.agent) && Decent(cfg, s.server.trace.hist)
    ensures Well(cfg, s.(pc := pc)) && s.server.mem.acked <= s.agent.mem.last
  {
    CursorsBehind(cfg, s.server.trace.hist, s.agent);
    AckedTaken(cfg, s);
  }

  lemma GivesUp(cfg: Config, s: Sys)
    requires !s.pc.Stopped?
    ensures Reaches(cfg, Restarting, s, s.(pc := Idle))
  {
    ReachesNext(cfg, Restarting, s, GiveUp);
  }

  /** Wherever it is, a settled Agent that is awake and has not stopped gets everything acknowledged by connecting anew. */
  lemma AwakeAcknowledges(cfg: Config, s: Sys) returns (s': Sys)
    requires ServerOk(cfg, s.server) && Settled(cfg, s) && Awake(cfg, s.agent) && !s.pc.Stopped?
    requires Decent(cfg, s.server.trace.hist) && Roomy(cfg, s.server.trace.hist)
    ensures Reaches(cfg, Restarting, s, s') && Polling(cfg, s') && s'.server.trace.hist == s.server.trace.hist
    ensures s'.server.mem.acked == s'.server.mem.latest == |s.server.trace.hist|
  {
    hide *;
    GivesUp(cfg, s);
    AwakeWell(cfg, s, Idle);
    var s1 := s.(pc := Idle);
    var s2 := Connects(cfg, s1);
    ReachesToo(cfg, s1, s2);
    s' := EverythingAcknowledged(cfg, s2);
    ReachesToo(cfg, s2, s');
    ReachesOn(cfg, Restarting, s, s1, s2);
    ReachesOn(cfg, Restarting, s, s2, s');
  }

  lemma RestartEnabled(cfg: Config, s: Sys)
    requires Inv(cfg, s)
    ensures Enabled(cfg, s, RestartAgent(|s.agent.disk.log|, |s.agent.webhook.log|))
  {
    if Fresh(cfg, s) {
      assert NO_MARKS.marks[..NO_MARKS.durable] == [];
    } else {
      RestartWhole(cfg, s.server.trace.hist, s.agent);
    }
  }

  lemma RestartWhole(cfg: Config, h: seq<Envelope>, a: Agent)
    requires Tracking(cfg, h, a)
    ensures a.mem.bytes <= |a.disk.log| && DurableLedger(cfg, a.trace) <= |a.webhook.log|
  {
    var t := a.trace;
    if !t.lost && !t.exposed && t.durable <= |t.marks| {
      WebhookSafety.LogBytesMonotone(cfg.markCoding, t.marks, t.durable, |t.marks|);
      assert t.marks[..|t.marks|] == t.marks;
    }
  }

  /** A restart of a settled Agent leaves it settled and awake. */
  lemma RestartWakes(cfg: Config, s: Sys) returns (s': Sys)
    requires Inv(cfg, s) && Settled(cfg, s)
    ensures Reaches(cfg, Restarting, s, s') && Inv(cfg, s') && Settled(cfg, s') && Awake(cfg, s'.agent)
    ensures s'.server == s.server && s'.pc == Idle
  {
    var cutInbox, cutLedger := |s.agent.disk.log|, |s.agent.webhook.log|;
    RestartEnabled(cfg, s);
    ReachesNext(cfg, Restarting, s, RestartAgent(cutInbox, cutLedger));
    s' := Do(cfg, s, RestartAgent(cutInbox, cutLedger));
    RestartSettledKeeps(cfg, s, cutInbox, cutLedger);
    RestartEndsStall(cfg, s, cutInbox, cutLedger);
    RestartWorks(cfg, s.agent, cutInbox, cutLedger);
  }

  lemma RestartWorks(cfg: Config, a: Agent, cutInbox: nat, cutLedger: nat)
    requires cutInbox <= |a.disk.log| && cutLedger <= |a.webhook.log|
    ensures !Reopened(cfg, a, cutInbox, cutLedger).0.mem.failed
  {
  }

  /** A fresh Agent restarts into one that waits for its first handshake, or that has its baseline already. */
  lemma FreshRestarts(cfg: Config, s: Sys) returns (s': Sys)
    requires Inv(cfg, s) && Fresh(cfg, s)
    ensures Reaches(cfg, Restarting, s, s') && Inv(cfg, s') && s'.server == s.server && s'.pc == Idle
  {
    RestartEnabled(cfg, s);
    ReachesNext(cfg, Restarting, s, RestartAgent(0, 0));
    s' := Do(cfg, s, RestartAgent(0, 0));
    RestartFreshKeeps(cfg, s, 0, 0);
  }

  /** It takes over the baseline with its first handshake. */
  lemma FreshGreets(cfg: Config, s: Sys) returns (s': Sys)
    requires Inv(cfg, s) && Fresh(cfg, s) && s.pc == Idle
    ensures Reaches(cfg, Restarting, s, s') && Inv(cfg, s') && Settled(cfg, s') && s'.server == s.server
  {
    ReachesNext(cfg, Restarting, s, Connect);
    var s1 := Do(cfg, s, Connect);
    StepKeeps(cfg, s, Connect);
    ReachesNext(cfg, Restarting, s1, AnswerHandshake);
    var s2 := Do(cfg, s1, AnswerHandshake);
    StepKeeps(cfg, s1, AnswerHandshake);
    ReachesNext(cfg, Restarting, s2, Greet(Inbox.NoBaselineFault));
    s' := Do(cfg, s2, Greet(Inbox.NoBaselineFault));
    StepKeeps(cfg, s2, Greet(Inbox.NoBaselineFault));
    ReachesOn(cfg, Restarting, s, s1, s2);
    ReachesOn(cfg, Restarting, s, s2, s');
  }

  lemma Settles(cfg: Config, s: Sys) returns (s': Sys)
    requires Inv(cfg, s)
    ensures Reaches(cfg, Restarting, s, s') && Inv(cfg, s') && Settled(cfg, s') && s'.server == s.server
  {
    if Settled(cfg, s) {
      ReachesNow(cfg, Restarting, s);
      return s;
    }
    var s1 := FreshRestarts(cfg, s);
    if Settled(cfg, s1) { return s1; }
    s' := FreshGreets(cfg, s1);
    ReachesOn(cfg, Restarting, s, s1, s');
  }

  /** Whatever has happened: after restarts of the Agent alone, everything can still be acknowledged. */
  lemma Recovers(cfg: Config, s: Sys) returns (s': Sys)
    requires Inv(cfg, s) && Decent(cfg, s.server.trace.hist) && Roomy(cfg, s.server.trace.hist)
    ensures Reaches(cfg, Restarting, s, s') && s'.server.trace.hist == s.server.trace.hist
    ensures s'.server.mem.acked == s'.server.mem.latest == |s.server.trace.hist|
  {
    var s1 := Settles(cfg, s);
    var s2 := RestartWakes(cfg, s1);
    ServerInOrder(cfg, s2);
    s' := AwakeAcknowledges(cfg, s2);
    ReachesOn(cfg, Restarting, s, s1, s2);
    ReachesOn(cfg, Restarting, s, s2, s');
  }

  /**
   Every run goes on, without a failure and with restarts of the Agent at most, to one in which the server
   has had everything acknowledged, if the history is decent and the inbox has space for it.
   */
  lemma EveryRunRecovers(cfg: Config, states: seq<Sys>, acts: seq<Action>) returns (states': seq<Sys>, acts': seq<Action>)
    requires Run(cfg, states, acts) && Init(cfg, states[0])
    requires Decent(cfg, states[|acts|].server.trace.hist) && Roomy(cfg, states[|acts|].server.trace.hist)
    ensures Run(cfg, states', acts') && states <= states' && acts <= acts'
    ensures var v := states'[|acts'|].server;
            v.trace.hist == states[|acts|].server.trace.hist && v.mem.acked == v.mem.latest == |v.trace.hist|
  {
    RunInv(cfg, states, acts, |acts|);
    var s' := Recovers(cfg, states[|acts|]);
    states', acts' := RunOn(cfg, Restarting, states, acts, s');
  }
}
