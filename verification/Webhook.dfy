/**
 The webhook processor: for each event, deliver to every planned target that the ledger does
 not show as done, mark it, and only then move the cursor file and forget the marks.

 The processor is a machine of two atomic steps, delivering to one target and passing the
 event; a call of `Process` is a sequence of such steps.
 */
module Webhook {
  import opened Basics
  import opened RecordLog
  import opened Envelopes
  import opened Ledger
  import Inbox

  datatype Outcome = Delivered | PermanentFailure | RetryableFailure

  datatype Conversion = Broken | Ignored | Notify

  /** How an envelope becomes a notification, and which targets are to receive it. */
  datatype Rules = Rules(convert: Envelope -> Conversion, plan: Envelope -> seq<string>)

  function Targets(rules: Rules, e: Envelope): seq<string> {
    if rules.convert(e).Notify? then rules.plan(e) else []
  }

  datatype State = State(entries: map<string, Status>, log: seq<Byte>, cursorFile: Option<nat>, cursor: nat)

  datatype CursorFault = CursorWritten | CursorFailed(replaced: bool)

  datatype Step =
    | Deliver(target: string, outcome: Outcome, fault: WriteFault)
    | Pass(cursorFault: CursorFault, order: seq<string>, rewrite: RewriteFault)

  function StatusOf(o: Outcome): Status {
    if o.PermanentFailure? then PermanentFailed else Succeeded
  }

  /** Delivering to one target; a target that is done is skipped. */
  function DeliverTo(c: Coding<Mark>, s: State, e: Envelope, target: string, outcome: Outcome, fault: WriteFault): (State, bool) {
    if Key(e.id, target) in s.entries then (s, true)
    else if outcome.RetryableFailure? then (s, false)
    else
      var (entries, log, ok) := Write(c, s.entries, s.log, Mark(e.id, target, StatusOf(outcome)), fault);
      (s.(entries := entries, log := log), ok)
  }

  /** Passing an event: cursor file, cursor, then the clean-up, whose failure is ignored. */
  function PassEvent(c: Coding<Mark>, s: State, e: Envelope, fault: CursorFault, order: seq<string>, rewrite: RewriteFault): (State, bool) {
    match fault
    case CursorFailed(replaced) => (if replaced then s.(cursorFile := Some(e.sequence)) else s, false)
    case CursorWritten =>
      var (entries, log) := Complete(c, s.entries, s.log, e.id, order, rewrite);
      (State(entries, log, Some(e.sequence), e.sequence), true)
  }

  ghost predicate AllDone(rules: Rules, s: State, e: Envelope) {
    forall t :: t in Targets(rules, e) ==> Key(e.id, t) in s.entries
  }

  /** A target step is for a planned target; an event is passed once all its targets are done. */
  ghost predicate Enabled(rules: Rules, s: State, e: Envelope, step: Step) {
    && !rules.convert(e).Broken?
    && match step
       case Deliver(target, _, _) => target in Targets(rules, e)
       case Pass(fault, order, _) => AllDone(rules, s, e) && (fault.CursorWritten? ==> Enumerates(order, Without(s.entries, e.id)))
  }

  function Apply(c: Coding<Mark>, s: State, e: Envelope, step: Step): (State, bool) {
    match step
    case Deliver(target, outcome, fault) => DeliverTo(c, s, e, target, outcome, fault)
    case Pass(fault, order, rewrite) => PassEvent(c, s, e, fault, order, rewrite)
  }

  /** A sequence of enabled steps on the events from position k on. */
  ghost predicate Runs(c: Coding<Mark>, rules: Rules, s: State, events: seq<Envelope>, k: nat, steps: seq<Step>, s': State, k': nat)
    decreases |steps|
  {
    if steps == [] then s == s' && k == k'
    else
      && k < |events| && Enabled(rules, s, events[k], steps[0])
      && var (s1, ok) := Apply(c, s, events[k], steps[0]);
         Runs(c, rules, s1, events, if ok && steps[0].Pass? then k + 1 else k, steps[1..], s', k')
  }

  lemma {:induction false} RunsSnoc(c: Coding<Mark>, rules: Rules, s: State, events: seq<Envelope>, k: nat, steps: seq<Step>,
                                    s1: State, k1: nat, step: Step)
    requires Runs(c, rules, s, events, k, steps, s1, k1)
    requires k1 < |events| && Enabled(rules, s1, events[k1], step)
    ensures var (s2, ok) := Apply(c, s1, events[k1], step);
            Runs(c, rules, s, events, k, steps + [step], s2, if ok && step.Pass? then k1 + 1 else k1)
    decreases |steps|
  {
    if steps == [] {
      assert ([step])[1..] == [] && steps + [step] == [step];
    } else {
      var (s', ok) := Apply(c, s, events[k], steps[0]);
      assert (steps + [step])[1..] == steps[1..] + [step];
      RunsSnoc(c, rules, s', events, if ok && steps[0].Pass? then k + 1 else k, steps[1..], s1, k1, step);
    }
  }

  /** What keeps an event from being passed at target j: it is to be retried, or its mark is not written and synced. */
  predicate Hindered(world: nat -> (Outcome, WriteFault), j: nat) {
    world(j).0.RetryableFailure? || !world(j).1.NoFault?
  }

  /** A target that was not done before is hindered. */
  ghost predicate SomeHindered(rules: Rules, entries: map<string, Status>, e: Envelope, world: nat -> (Outcome, WriteFault)) {
    exists j :: 0 <= j < |Targets(rules, e)| && Hindered(world, j) && Key(e.id, Targets(rules, e)[j]) !in entries
  }

  ghost predicate AnyHindered(world: nat -> (Outcome, WriteFault), n: nat) {
    exists j :: 0 <= j < n && Hindered(world, j)
  }

  /** Delivering succeeds exactly when the target is done before, or gets a final outcome that is marked; a success leaves it done. */
  lemma DeliverAnswers(c: Coding<Mark>, s: State, e: Envelope, target: string, outcome: Outcome, fault: WriteFault)
    ensures var (s', ok) := DeliverTo(c, s, e, target, outcome, fault);
            && (ok <==> Key(e.id, target) in s.entries || (!outcome.RetryableFailure? && fault.NoFault?))
            && (ok ==> Key(e.id, target) in s'.entries)
            && (forall k :: k in s.entries ==> k in s'.entries && s'.entries[k] == s.entries[k])
            && (forall k :: k in s'.entries ==> k in s.entries || k == Key(e.id, target))
            && s'.cursor == s.cursor && s'.cursorFile == s.cursorFile
    ensures var (s', ok) := DeliverTo(c, s, e, target, outcome, fault);
            ok && Key(e.id, target) !in s.entries ==>
              s'.entries[Key(e.id, target)] == (if outcome.PermanentFailure? then PermanentFailed else Succeeded)
              && s'.log == s.log + Record(c, Mark(e.id, target, s'.entries[Key(e.id, target)]))
  {
  }

  /** An event is held back only for a named cause, and is passed when there is none. */
  ghost predicate Held(rules: Rules, entries: map<string, Status>, e: Envelope, world: nat -> (Outcome, WriteFault), fault: CursorFault, ok: bool) {
    && (!ok ==> rules.convert(e).Broken? || SomeHindered(rules, entries, e, world) || fault.CursorFailed?)
    && (rules.convert(e).Broken? || fault.CursorFailed? ==> !ok)
  }

  /** What can keep an event from being passed, whatever was done before. */
  ghost predicate Stuck(rules: Rules, e: Envelope, world: nat -> (Outcome, WriteFault), fault: CursorFault) {
    rules.convert(e).Broken? || AnyHindered(world, |Targets(rules, e)|) || fault.CursorFailed?
  }

  lemma HinderedAnywhere(rules: Rules, entries: map<string, Status>, e: Envelope, world: nat -> (Outcome, WriteFault))
    ensures SomeHindered(rules, entries, e, world) ==> AnyHindered(world, |Targets(rules, e)|)
  {
  }

  // ---- The processor ----

  class Processor {
    const rules: Rules
    const inbox: Inbox.Store
    const ledger: Store
    var cursorFile: Option<nat>
    var cursor: nat

    function View(): State
      reads this, ledger
    {
      State(ledger.entries, ledger.log, cursorFile, cursor)
    }

    constructor (rules: Rules, inbox: Inbox.Store, ledger: Store, cursorFile: Option<nat>, cursor: nat)
      ensures this.rules == rules && this.inbox == inbox && this.ledger == ledger
      ensures View() == State(ledger.entries, ledger.log, cursorFile, cursor)
    {
      this.rules, this.inbox, this.ledger := rules, inbox, ledger;
      this.cursorFile, this.cursor := cursorFile, cursor;
    }

    /** One delivery, skipped when the ledger shows it done. The world supplies the outcome and the file system's behaviour. */
    method DeliverOne(e: Envelope, target: string, outcome: Outcome, fault: WriteFault) returns (ok: bool)
      modifies ledger
      ensures (View(), ok) == DeliverTo(ledger.coding, old(View()), e, target, outcome, fault)
    {
      var done := ledger.Done(e.id, target);
      if done { return true; }
      if outcome.RetryableFailure? { return false; }
      var status := if outcome.PermanentFailure? then PermanentFailed else Succeeded;
      ok := ledger.MarkDone(e.id, target, status, fault);
    }

    method PassOne(e: Envelope, fault: CursorFault, rewrite: RewriteFault) returns (ok: bool, ghost order: seq<string>)
      modifies this, ledger
      ensures fault.CursorWritten? ==> Enumerates(order, Without(old(View()).entries, e.id))
      ensures (View(), ok) == PassEvent(ledger.coding, old(View()), e, fault, order, rewrite)
    {
      if fault.CursorFailed? {
        if fault.replaced { cursorFile := Some(e.sequence); }
        return false, [];
      }
      cursorFile := Some(e.sequence);
      cursor := e.sequence;
      var _, keys := ledger.CompleteEvent(e.id, rewrite);
      return true, keys;
    }

    /** The inner loop over the planned targets of one event. */
    method DeliverAll(events: seq<Envelope>, k: nat, world: nat -> (Outcome, WriteFault)) returns (ok: bool, ghost steps: seq<Step>)
      requires k < |events| && !rules.convert(events[k]).Broken?
      modifies ledger
      ensures Runs(ledger.coding, rules, old(View()), events, k, steps, View(), k)
      ensures ok ==> AllDone(rules, View(), events[k])
      ensures !ok ==> SomeHindered(rules, old(ledger.entries), events[k], world)
      ensures Targets(rules, events[k]) == [] ==> steps == []
    {
      var e := events[k];
      var targets := Targets(rules, e);
      steps := [];
      for j := 0 to |targets|
        invariant Runs(ledger.coding, rules, old(View()), events, k, steps, View(), k)
        invariant forall i :: 0 <= i < j ==> Key(e.id, targets[i]) in View().entries
        invariant forall key :: key in old(ledger.entries) ==> key in ledger.entries
        invariant targets == [] ==> steps == []
      {
        var (outcome, fault) := world(j);
        ghost var step := Deliver(targets[j], outcome, fault);
        RunsSnoc(ledger.coding, rules, old(View()), events, k, steps, View(), k, step);
        DeliverAnswers(ledger.coding, View(), e, targets[j], outcome, fault);
        ok := DeliverOne(e, targets[j], outcome, fault);
        steps := steps + [step];
        if !ok {
          assert Hindered(world, j);
          return;
        }
      }
      ok := true;
    }

    /** One event: convert, deliver to all targets, pass. */
    method HandleEvent(events: seq<Envelope>, k: nat, world: nat -> (Outcome, WriteFault), fault: CursorFault, rewrite: RewriteFault)
      returns (ok: bool, ghost steps: seq<Step>)
      requires k < |events|
      modifies this, ledger
      ensures Runs(ledger.coding, rules, old(View()), events, k, steps, View(), if ok then k + 1 else k)
      ensures Held(rules, old(ledger.entries), events[k], world, fault, ok)
      ensures ok ==> cursor == events[k].sequence && cursorFile == Some(cursor)
      ensures !ok ==> cursor == old(cursor)
      ensures rules.convert(events[k]).Ignored? ==> exists order :: steps == [Pass(fault, order, rewrite)]
    {
      if rules.convert(events[k]).Broken? { return false, []; }
      ok, steps := DeliverAll(events, k, world);
      if !ok { return; }
      ghost var before := View();
      ghost var order;
      ok, order := PassOne(events[k], fault, rewrite);
      ghost var step := Pass(fault, order, rewrite);
      RunsSnoc(ledger.coding, rules, old(View()), events, k, steps, before, k, step);
      steps := steps + [step];
    }

    /** Reads the next events behind the cursor and handles them in order, stopping at the first error. */
    method Process(limit: int, world: (nat, nat) -> (Outcome, WriteFault), passing: nat -> (CursorFault, RewriteFault))
      returns (processed: nat, ok: bool, ghost steps: seq<Step>)
      modifies this, ledger
      ensures var read := Inbox.ReadAfter(inbox.coding, inbox.View(), inbox.disk, old(cursor), limit);
              && Processed(ledger.coding, rules, old(View()), read, steps, View(), processed)
              && Finished(rules, read, processed, world, passing, ok)
    {
      processed, steps := 0, [];
      var read := inbox.Read(cursor, limit);
      if read.None? { return 0, false, []; }
      var events := read.value;
      while processed < |events|
        invariant 0 <= processed <= |events|
        invariant Processed(ledger.coding, rules, old(View()), read, steps, View(), processed)
      {
        ghost var before := View();
        ghost var more;
        var k := processed;
        var (fault, rewrite) := passing(k);
        ok, more := HandleEvent(events, k, (j: nat) => world(k, j), fault, rewrite);
        Proceeds(ledger.coding, rules, old(View()), events, steps, before, k, more, View(), ok);
        steps := steps + more;
        if !ok {
          HinderedAnywhere(rules, before.entries, events[k], (j: nat) => world(k, j));
          return;
        }
        processed := processed + 1;
      }
      ok := true;
    }
  }

  /** A call has gone through the first events it read, as a run of steps; its cursor is the last of them. */
  ghost predicate Processed(c: Coding<Mark>, rules: Rules, s: State, read: Option<seq<Envelope>>, steps: seq<Step>, s': State, processed: nat) {
    match read
    case None => processed == 0 && s' == s
    case Some(events) =>
      && processed <= |events| && Runs(c, rules, s, events, 0, steps, s', processed)
      && s'.cursor == (if processed == 0 then s.cursor else events[processed - 1].sequence)
  }

  /** A call succeeds exactly when it gets through all it read, and stops early only where something is stuck. */
  ghost predicate Finished(rules: Rules, read: Option<seq<Envelope>>, processed: nat, world: (nat, nat) -> (Outcome, WriteFault),
                           passing: nat -> (CursorFault, RewriteFault), ok: bool)
  {
    match read
    case None => !ok
    case Some(events) =>
      && (ok <==> processed >= |events|)
      && (!ok ==> processed < |events| && Stuck(rules, events[processed], (j: nat) => world(processed, j), passing(processed).0))
  }

  lemma Proceeds(c: Coding<Mark>, rules: Rules, s: State, events: seq<Envelope>, steps: seq<Step>, s1: State, k: nat, more: seq<Step>, s2: State, ok: bool)
    requires Processed(c, rules, s, Some(events), steps, s1, k) && k < |events|
    requires Runs(c, rules, s1, events, k, more, s2, if ok then k + 1 else k)
    requires s2.cursor == if ok then events[k].sequence else s1.cursor
    ensures Processed(c, rules, s, Some(events), steps + more, s2, if ok then k + 1 else k)
  {
    RunsAppend(c, rules, s, events, 0, steps, s1, k, more, s2, if ok then k + 1 else k);
  }

  lemma {:induction false} RunsAppend(c: Coding<Mark>, rules: Rules, s: State, events: seq<Envelope>, k: nat, steps: seq<Step>,
                                      s1: State, k1: nat, more: seq<Step>, s2: State, k2: nat)
    requires Runs(c, rules, s, events, k, steps, s1, k1)
    requires Runs(c, rules, s1, events, k1, more, s2, k2)
    ensures Runs(c, rules, s, events, k, steps + more, s2, k2)
    decreases |steps|
  {
    if steps == [] {
      assert steps + more == more;
    } else {
      var (s', ok) := Apply(c, s, events[k], steps[0]);
      assert (steps + more)[1..] == steps[1..] + more;
      RunsAppend(c, rules, s', events, if ok && steps[0].Pass? then k + 1 else k, steps[1..], s1, k1, more, s2, k2);
    }
  }
}
