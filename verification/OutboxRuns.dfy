/** Short runs of the outbox, from an empty directory, to the states in which its promises fail. */
module OutboxRuns {
  import opened Basics
  import opened RecordLog
  import opened Envelopes
  import opened Outbox
  import opened OutboxSafety

  lemma RunSnoc(c: Coding<Envelope>, max: nat, states: seq<Server>, steps: seq<Step>, step: Step, v: Server)
    returns (states': seq<Server>, steps': seq<Step>)
    requires Run(c, max, states, steps) && Next(c, max, states[|steps|], step, v)
    ensures Run(c, max, states', steps') && states' == states + [v] && steps' == steps + [step]
  {
    states', steps' := states + [v], steps + [step];
  }

  function AppendOf(e: Envelope, p: Priority): Step {
    DoAppend(e.id, e.kind, e.createdAt, e.payload, p, NoFault)
  }

  /** An event that can be stored under the given number. */
  ghost predicate Storable(c: Coding<Envelope>, e: Envelope, sequence: nat) {
    e.id != "" && e.sequence == sequence && Fits(c, e)
  }

  /** The store with one event and with two, nothing acknowledged. */
  ghost function One(c: Coding<Envelope>, e: Envelope): Server {
    Server(Mem([e], 0, 1, |Record(c, e)|, 0, false, false), Disk(Record(c, e), 0), Trace([e], [Critical], 0, None))
  }

  ghost function Two(c: Coding<Envelope>, e1: Envelope, e2: Envelope): Server {
    var log := Record(c, e1) + Record(c, e2);
    Server(Mem([e1, e2], 0, 2, |log|, 0, false, false), Disk(log, 0), Trace([e1, e2], [Critical, Critical], 0, None))
  }

  lemma FirstAppended(c: Coding<Envelope>, max: nat, e: Envelope)
    requires Storable(c, e, 1) && |Record(c, e)| <= max
    ensures Next(c, max, EMPTY, AppendOf(e, Critical), One(c, e))
  {
    assert [] + Record(c, e) == Record(c, e) && [] + [e] == [e];
  }

  lemma SecondAppended(c: Coding<Envelope>, max: nat, e1: Envelope, e2: Envelope)
    requires Storable(c, e2, 2) && |Record(c, e1)| + |Record(c, e2)| <= max
    ensures Next(c, max, One(c, e1), AppendOf(e2, Critical), Two(c, e1, e2))
  {
    assert [e1] + [e2] == [e1, e2];
  }

  lemma OneStored(c: Coding<Envelope>, max: nat, e: Envelope) returns (states: seq<Server>, steps: seq<Step>)
    requires Lawful(c) && Storable(c, e, 1) && |Record(c, e)| <= max
    ensures Run(c, max, states, steps) && |steps| == 1 && states[1] == One(c, e)
  {
    FirstAppended(c, max, e);
    states, steps := RunSnoc(c, max, [EMPTY], [], AppendOf(e, Critical), One(c, e));
  }

  lemma TwoStored(c: Coding<Envelope>, max: nat, e1: Envelope, e2: Envelope) returns (states: seq<Server>, steps: seq<Step>)
    requires Lawful(c) && Storable(c, e1, 1) && Storable(c, e2, 2) && |Record(c, e1)| + |Record(c, e2)| <= max
    ensures Run(c, max, states, steps) && |steps| == 2 && states[2] == Two(c, e1, e2)
  {
    states, steps := OneStored(c, max, e1);
    SecondAppended(c, max, e1, e2);
    states, steps := RunSnoc(c, max, states, steps, AppendOf(e2, Critical), Two(c, e1, e2));
  }

  lemma Acked(c: Coding<Envelope>, max: nat, states: seq<Server>, steps: seq<Step>, sequence: nat, fault: AckFault)
    returns (states': seq<Server>, steps': seq<Step>)
    requires Run(c, max, states, steps)
    ensures Run(c, max, states', steps') && steps' == steps + [DoAck(sequence, fault)] && states'[..|states|] == states
    ensures var v, v' := states[|steps|], states'[|steps'|];
            (v'.mem, v'.disk) == (Ack(c, v.mem, v.disk, sequence, fault).0, Ack(c, v.mem, v.disk, sequence, fault).1)
  {
    var v' := Do(c, max, states[|steps|], DoAck(sequence, fault));
    states', steps' := RunSnoc(c, max, states, steps, DoAck(sequence, fault), v');
  }

  /** A restart that loses nothing of the file. */
  lemma Reopened(c: Coding<Envelope>, max: nat, states: seq<Server>, steps: seq<Step>) returns (states': seq<Server>, steps': seq<Step>)
    requires Run(c, max, states, steps)
    ensures Run(c, max, states', steps') && |steps'| == |steps| + 1 && steps'[..|steps|] == steps && states'[..|states|] == states
    ensures states'[|steps'|].mem == Restart(c, states[|steps|].disk, |states[|steps|].disk.log|).0
  {
    RunInv(c, max, states, steps, |steps|);
    var v := states[|steps|];
    states', steps' := RunSnoc(c, max, states, steps, DoRestart(|v.disk.log|), Do(c, max, v, DoRestart(|v.disk.log|)));
  }

  /** One large critical event is acknowledged, compaction fails after replacing the log, and a small critical event is refused. */
  lemma StaleCounterRun(c: Coding<Envelope>, max: nat, e1: Envelope, e2: Envelope) returns (states: seq<Server>, steps: seq<Step>)
    requires Lawful(c) && Storable(c, e1, 1) && Storable(c, e2, 2)
    requires |Record(c, e1)| <= max && |Record(c, e2)| <= max / 4 && |Record(c, e1)| + |Record(c, e2)| > max
    ensures Run(c, max, states, steps)
    ensures var v := states[|steps|];
            v.disk.log == [] && Append(c, max, v.mem, v.disk, e2.id, e2.kind, e2.createdAt, e2.payload, Critical, NoFault).2 == Full
  {
    states, steps := OneStored(c, max, e1);
    RunInv(c, max, states, steps, 1);
    StaleCounterRefuses(c, max, One(c, e1).trace, One(c, e1).mem, One(c, e1).disk, e2.id, e2.kind, e2.createdAt, e2.payload, |Record(c, e2)|);
    states, steps := Acked(c, max, states, steps, 1, CompactFailed(true));
  }

  /** Two events; the acknowledgement of the second fails late, that of the first succeeds: the checkpoint file goes back from 2 to 1. */
  lemma CheckpointBackRun(c: Coding<Envelope>, max: nat, e1: Envelope, e2: Envelope) returns (states: seq<Server>, steps: seq<Step>)
    requires Lawful(c) && Storable(c, e1, 1) && Storable(c, e2, 2) && |Record(c, e1)| + |Record(c, e2)| <= max
    ensures Run(c, max, states, steps) && |steps| == 4
    ensures states[3].disk.checkpoint == 2 && states[4].disk.checkpoint == 1
  {
    states, steps := TwoStored(c, max, e1, e2);
    RunInv(c, max, states, steps, 2);
    CheckpointGoesBack(c, max, Two(c, e1, e2).trace, Two(c, e1, e2).mem, Two(c, e1, e2).disk, 1, 2);
    states, steps := Acked(c, max, states, steps, 2, CheckpointFailed(true));
    states, steps := Acked(c, max, states, steps, 1, NoAckFault);
  }

  lemma TwoLost(c: Coding<Envelope>, max: nat, e1: Envelope, e2: Envelope) returns (states: seq<Server>, steps: seq<Step>)
    requires Lawful(c) && Storable(c, e1, 1) && Storable(c, e2, 2) && |Record(c, e1)| + |Record(c, e2)| <= max
    ensures Run(c, max, states, steps) && |steps| == 4 && steps[3] == DoAck(1, CheckpointFailed(false))
    ensures states[3].mem.acked == states[4].mem.acked == 0
    ensures Restart(c, states[4].disk, |states[4].disk.log|).0.acked == 2
  {
    states, steps := TwoStored(c, max, e1, e2);
    RunInv(c, max, states, steps, 2);
    ThirdPair(c, max, Two(c, e1, e2).trace, Two(c, e1, e2).mem, Two(c, e1, e2).disk, 1, 2);
    states, steps := Acked(c, max, states, steps, 2, CheckpointFailed(true));
    states, steps := Acked(c, max, states, steps, 1, CheckpointFailed(false));
  }

  /** The same, but the acknowledgement of the first crashes before its checkpoint: the outbox showed 0 and reopens at 2. */
  lemma ThirdPairRun(c: Coding<Envelope>, max: nat, e1: Envelope, e2: Envelope) returns (states: seq<Server>, steps: seq<Step>)
    requires Lawful(c) && Storable(c, e1, 1) && Storable(c, e2, 2) && |Record(c, e1)| + |Record(c, e2)| <= max
    ensures Run(c, max, states, steps) && |steps| == 5
    ensures steps[3] == DoAck(1, CheckpointFailed(false)) && states[3].mem.acked == states[4].mem.acked == 0 && states[5].mem.acked == 2
  {
    states, steps := TwoLost(c, max, e1, e2);
    states, steps := Reopened(c, max, states, steps);
  }
}
