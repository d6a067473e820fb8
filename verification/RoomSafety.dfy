/** What every command, timer and administrative step keeps of a listed room. */
module RoomSafety {
  import opened Basics
  import opened Rooms
  import HostRotation

  /** Everything that can happen to a room. */
  datatype Step =
    | DoJoin(user: int, monitor: bool, canMonitor: bool)
    | DoLeave(user: int)
    | DoChooseChart(user: int, chart: Option<int>)
    | DoRequestStart(user: int)
    | DoReady(user: int)
    | DoCancelReady(user: int)
    | DoPlayed(user: int, record: Option<Record>)
    | DoAbort(user: int)
    | ReadyFires
    | DeadlineFires
    | DoStartContest(force: bool)
    | DoEnableContest(ids: seq<int>)
    | DoDisableContest
    | DoTransferHost(user: int)
    | DoSetNextHost(user: int)
    | DoLock(on: bool)
    | DoCycle(on: bool)

  /** Members act, newcomers join, timers fire when armed. */
  predicate Possible(r: Room, step: Step) {
    match step
    case DoJoin(user, _, _) => user !in r.users && user !in r.monitors
    case DoLeave(user) => user in r.users || user in r.monitors
    case DoPlayed(user, _) => user in r.users || user in r.monitors
    case DoAbort(user) => user in r.users || user in r.monitors
    case DoReady(user) => user in r.users || user in r.monitors
    case DoCancelReady(user) => user in r.users || user in r.monitors
    case ReadyFires => r.readyArmed
    case DeadlineFires => r.deadlineArmed
    case _ => true
  }

  /** Steps of an administrator, or settings of the host. */
  predicate IsAdministrative(step: Step) {
    match step
    case DoStartContest(_) => true
    case DoEnableContest(_) => true
    case DoDisableContest => true
    case DoTransferHost(_) => true
    case DoSetNextHost(_) => true
    case DoLock(_) => true
    case DoCycle(_) => true
    case _ => false
  }

  /** Whether a member is a monitor. */
  function Role(r: Room, user: int): bool {
    user !in r.users
  }

  function After(r: Room, step: Step): (Room, Verdict) {
    match step
    case DoJoin(user, monitor, canMonitor) => Join(r, user, monitor, canMonitor)
    case DoLeave(user) => var (r1, _, disband) := Leave(r, user, Role(r, user)); (r1, Judge(disband))
    case DoChooseChart(user, chart) => ChooseChart(r, user, chart)
    case DoRequestStart(user) => RequestStart(r, user)
    case DoReady(user) => Ready(r, user)
    case DoCancelReady(user) => CancelReady(r, user)
    case DoPlayed(user, record) => Played(r, user, record)
    case DoAbort(user) => Abort(r, user)
    case ReadyFires => (ReadyTimeout(r), Done)
    case DeadlineFires => DeadlineTimeout(r)
    case DoStartContest(force) => StartContest(r, force)
    case DoEnableContest(ids) => (EnableContest(r, ids), Done)
    case DoDisableContest => (r.(contest := None), Done)
    case DoTransferHost(user) => TransferHost(r, user)
    case DoSetNextHost(user) => (r.(nextHost := Some(user)), Done)
    case DoLock(on) => (r.(locked := on), Done)
    case DoCycle(on) => (r.(cycle := on), Done)
  }

  /** The host leaves and takes the room with them. */
  predicate Drops(r: Room, step: Step) {
    step.DoLeave? && Leave(r, step.user, Role(r, step.user)).1
  }

  // ---- The invariant ----

  ghost predicate Distinct(s: seq<int>) {
    forall i, j :: 0 <= i < j < |s| ==> s[i] != s[j]
  }

  ghost predicate MembersOk(r: Room) {
    match r
    case Room(_, max, host, _, _, _, _, users, monitors, usersMap, monitorUsers, snapshot, _, _, _, _, _, _, _) =>
      && Distinct(users) && Distinct(monitors)
      && (forall u :: u in usersMap <==> u in users)
      && (forall u :: u in monitorUsers <==> u in monitors)
      && (forall u :: u in users ==> u !in monitors)
      && snapshot == multiset(usersMap) + multiset(monitorUsers)
      && |users| <= max
  }

  ghost predicate HostOk(r: Room) {
    r.host in r.users
  }

  /** Starts and ends alternate: one round is running exactly in Playing. */
  ghost predicate RoundsOk(r: Room) {
    match r
    case Room(_, _, _, phase, _, _, _, _, _, _, _, _, chart, _, readyArmed, _, starts, ends, _) =>
      && starts == ends + (if phase.Playing? then 1 else 0)
      && (!phase.SelectChart? ==> chart.Some?)
      && (readyArmed ==> phase.WaitForReady?)
      && (phase.Playing? ==> forall u :: u in phase.results ==> Acceptable(r, u, phase.results[u]))
  }

  /** A running round waits for somebody who is here. */
  ghost predicate Alive(r: Room) {
    r.phase.Playing? ==> exists i :: 0 <= i < |r.users| && !Settled(r.phase, r.users[i])
  }

  ghost predicate Inv(r: Room) {
    match r
    case Room(_, _, _, _, _, _, _, _, _, _, _, _, _, _, _, _, _, _, _) =>
      MembersOk(r) && HostOk(r) && RoundsOk(r) && Alive(r)
  }

  // ---- Members ----

  lemma {:induction false} WithoutIs(s: seq<int>, v: int)
    requires Distinct(s)
    ensures Distinct(Without(s, v)) && |Without(s, v)| <= |s|
    ensures forall u :: u in Without(s, v) <==> u in s && u != v
    ensures v !in s ==> Without(s, v) == s
    decreases |s|
  {
    if s != [] {
      WithoutIs(s[1..], v);
      assert s == [s[0]] + s[1..];
      if s[0] != v {
        var t := Without(s[1..], v);
        assert s[0] !in t;
        forall i, j | 0 <= i < j < |[s[0]] + t|
          ensures ([s[0]] + t)[i] != ([s[0]] + t)[j]
        {
          assert ([s[0]] + t)[j] == t[j - 1] && t[j - 1] in t;
        }
      }
    }
  }

  lemma AddKeeps(r: Room, user: int, monitor: bool)
    requires MembersOk(r) && HostOk(r) && user !in r.users && user !in r.monitors
    ensures MembersOk(AddUser(r, user, monitor).0) && HostOk(AddUser(r, user, monitor).0)
  {
  }

  lemma RemoveKeeps(r: Room, user: int, monitor: bool)
    requires MembersOk(r)
    ensures MembersOk(RemoveMember(r, user, monitor))
  {
    WithoutIs(r.users, user);
    WithoutIs(r.monitors, user);
  }

  /** The snapshot names every participant exactly once. */
  lemma SnapshotExact(r: Room, u: int)
    requires MembersOk(r)
    ensures r.snapshot[u] == if u in r.users || u in r.monitors then 1 else 0
  {
  }

  lemma PickedIsMember(r: Room, host: int)
    requires r.users != []
    ensures HostRotation.Pick(r.users, host).Some? && HostRotation.Pick(r.users, host).value in r.users
  {
    HostRotation.PickIsSuccessor(r.users, host, HostRotation.Pick(r.users, host).value);
  }

  // ---- The state machine ----

  /** Rotation hands the room to a current player and changes nothing else but the designation. */
  lemma RotateKeeps(r: Room)
    requires HostOk(r)
    ensures HostOk(RotateHost(r)) && RotateHost(r) == r.(host := RotateHost(r).host, nextHost := RotateHost(r).nextHost)
  {
    PickedIsMember(r, r.host);
  }

  lemma EndKeeps(r: Room)
    requires MembersOk(r) && HostOk(r) && RoundsOk(r) && r.phase.Playing?
    ensures Inv(EndRound(r).0)
  {
    RotateKeeps(r.(deadlineArmed := false, phase := SelectChart, ends := r.ends + 1));
  }

  lemma StartKeeps(r: Room)
    requires MembersOk(r) && HostOk(r) && RoundsOk(r) && r.phase.WaitForReady?
    ensures Inv(StartPlaying(r))
  {
    var i :| 0 <= i < |r.users| && r.users[i] == r.host;
  }

  /** Checking a room that is in order except perhaps that its round is over gives one that is in order. */
  lemma CheckKeeps(r: Room)
    requires MembersOk(r) && HostOk(r) && RoundsOk(r)
    ensures Inv(CheckAllReady(r).0)
  {
    match r.phase
    case SelectChart =>
    case WaitForReady(_) => StartKeeps(r);
    case Playing(_, _) => EndKeeps(r);
  }

  lemma LeaveKeeps(r: Room, user: int)
    requires Inv(r) && Possible(r, DoLeave(user)) && !Drops(r, DoLeave(user))
    ensures Inv(Leave(r, user, Role(r, user)).0)
  {
    var monitor := Role(r, user);
    var r1 := RemoveMember(r, user, monitor);
    RemoveKeeps(r, user, monitor);
    WithoutIs(r.users, user);
    RemoveRounds(r, user, monitor);
    if r1.host == user {
      assert r1.users != [] by { HostRotation.PickIsSuccessor(r1.users, user, user); }
      PickedIsMember(r1, user);
      RehostKeeps(r1, HostRotation.Pick(r1.users, user).value);
    } else {
      CheckKeeps(r1);
    }
  }

  lemma RemoveRounds(r: Room, user: int, monitor: bool)
    requires RoundsOk(r)
    ensures RoundsOk(RemoveMember(r, user, monitor))
  {
  }

  lemma RehostKeeps(r: Room, host: int)
    requires MembersOk(r) && RoundsOk(r) && host in r.users
    ensures Inv(CheckAllReady(r.(host := host)).0)
  {
    CheckKeeps(r.(host := host));
  }

  /** A newcomer never ends a round: whoever it waited for is still there. */
  lemma AddAlive(r: Room, user: int, monitor: bool)
    requires Alive(r) && AddUser(r, user, monitor).1 && user !in r.users
    ensures Alive(HandleJoin(AddUser(r, user, monitor).0, user, monitor))
  {
    if r.phase.Playing? {
      var i :| 0 <= i < |r.users| && !Settled(r.phase, r.users[i]);
      var r1 := HandleJoin(AddUser(r, user, monitor).0, user, monitor);
      assert r1.users[i] == r.users[i] && r.users[i] in r.users;
    }
  }

  lemma AddRounds(r: Room, user: int, monitor: bool)
    requires RoundsOk(r)
    ensures RoundsOk(AddUser(r, user, monitor).0)
  {
  }

  lemma HandleJoinKeeps(r: Room, user: int, monitor: bool)
    requires MembersOk(r) && HostOk(r) && RoundsOk(r) && Alive(HandleJoin(r, user, monitor))
    ensures Inv(HandleJoin(r, user, monitor))
  {
  }

  lemma JoinKeeps(r: Room, user: int, monitor: bool, canMonitor: bool)
    requires Inv(r) && Possible(r, DoJoin(user, monitor, canMonitor))
    ensures Inv(Join(r, user, monitor, canMonitor).0)
  {
    if AddUser(r, user, monitor).1 {
      AddKeeps(r, user, monitor);
      AddRounds(r, user, monitor);
      AddAlive(r, user, monitor);
      HandleJoinKeeps(AddUser(r, user, monitor).0, user, monitor);
    }
  }

  lemma PlayedKeeps(r: Room, user: int, record: Option<Record>)
    requires Inv(r)
    ensures Inv(Played(r, user, record).0)
  {
    match r.phase
    case Playing(results, aborted) =>
      if record.Some? && Acceptable(r, user, record.value) {
        CheckKeeps(r.(phase := Playing(results[user := record.value], aborted)));
      }
    case _ =>
  }

  lemma AbortKeeps(r: Room, user: int)
    requires Inv(r)
    ensures Inv(Abort(r, user).0)
  {
    match r.phase
    case Playing(results, aborted) => CheckKeeps(r.(phase := Playing(results, aborted + {user})));
    case _ =>
  }

  lemma ReadyKeeps(r: Room, user: int)
    requires Inv(r)
    ensures Inv(Ready(r, user).0)
  {
    match r.phase
    case WaitForReady(started) => CheckKeeps(r.(phase := WaitForReady(started + {user})));
    case _ =>
  }

  lemma BeforePlayKeeps(r: Room, phase: Phase, armed: bool)
    requires Inv(r) && !r.phase.Playing? && !phase.Playing?
    requires (phase.WaitForReady? ==> r.chart.Some?) && (armed ==> phase.WaitForReady?)
    ensures Inv(r.(phase := phase, readyArmed := armed))
  {
  }

  lemma CancelReadyKeeps(r: Room, user: int)
    requires Inv(r)
    ensures Inv(CancelReady(r, user).0)
  {
    match r.phase
    case WaitForReady(started) =>
      BeforePlayKeeps(r, SelectChart, false);
      BeforePlayKeeps(r, WaitForReady(started - {user}), r.readyArmed);
      assert r.(phase := WaitForReady(started - {user}), readyArmed := r.readyArmed) == r.(phase := WaitForReady(started - {user}));
    case _ =>
  }

  lemma RequestStartKeeps(r: Room, user: int)
    requires Inv(r)
    ensures Inv(RequestStart(r, user).0)
  {
    if r.chart.Some? && r.phase.SelectChart? {
      CheckKeeps(r.(phase := WaitForReady({user})));
    }
  }

  lemma DeadlineKeeps(r: Room)
    requires Inv(r)
    ensures Inv(DeadlineTimeout(r).0)
  {
    match r.phase
    case Playing(results, aborted) =>
      CheckKeeps(r.(phase := Playing(results, aborted + set u | u in r.users && !Settled(r.phase, u))));
    case _ =>
  }

  // ---- Main results ----

  /** The ready countdown may fire only while some present player is ready. */
  ghost predicate SomeoneReady(r: Room) {
    r.phase.WaitForReady? ==> exists i :: 0 <= i < |r.users| && r.users[i] in r.phase.started
  }

  lemma ReadyFiresKeeps(r: Room)
    requires Inv(r) && SomeoneReady(r)
    ensures Inv(ReadyTimeout(r))
  {
    if r.phase.WaitForReady? {
      var i :| 0 <= i < |r.users| && r.users[i] in r.phase.started;
      assert !Settled(ReadyTimeout(r).phase, ReadyTimeout(r).users[i]);
    }
  }

  lemma StepKeeps(r: Room, step: Step)
    requires Inv(r) && Possible(r, step) && !Drops(r, step) && (step.ReadyFires? ==> SomeoneReady(r))
    ensures Inv(After(r, step).0)
  {
    match step
    case DoJoin(user, monitor, canMonitor) => JoinKeeps(r, user, monitor, canMonitor);
    case DoLeave(user) => LeaveKeeps(r, user);
    case DoRequestStart(user) => RequestStartKeeps(r, user);
    case DoReady(user) => ReadyKeeps(r, user);
    case DoCancelReady(user) => CancelReadyKeeps(r, user);
    case DoPlayed(user, record) => PlayedKeeps(r, user, record);
    case DoAbort(user) => AbortKeeps(r, user);
    case ReadyFires => ReadyFiresKeeps(r);
    case DeadlineFires => DeadlineKeeps(r);
    case DoStartContest(force) => StartContestKeeps(r, force);
    case _ => AdminKeeps(r, step);
  }

  lemma StartContestKeeps(r: Room, force: bool)
    requires Inv(r)
    ensures Inv(StartContest(r, force).0)
  {
  }

  lemma AdminKeeps(r: Room, step: Step)
    requires Inv(r)
    requires step.DoChooseChart? || step.DoEnableContest? || step.DoDisableContest? || step.DoTransferHost? || step.DoSetNextHost? || step.DoLock? || step.DoCycle?
    ensures Inv(After(r, step).0)
  {
  }

  /** Without somebody ready the countdown starts a round that nobody can finish: exactly then. */
  lemma ForcedStartWedges(r: Room)
    requires Inv(r) && r.phase.WaitForReady?
    ensures Alive(ReadyTimeout(r)) <==> SomeoneReady(r)
  {
    if SomeoneReady(r) {
      ReadyFiresKeeps(r);
    } else {
      forall i | 0 <= i < |r.users|
        ensures Settled(ReadyTimeout(r).phase, r.users[i])
      {
        assert r.users[i] in r.users;
      }
    }
  }

  // ---- The settlement deadline ----

  /** In a room that is never a contest: the deadline is armed exactly while a round holds a result, and once per round. */
  ghost predicate DeadlineOk(r: Room) {
    match r
    case Room(_, _, _, phase, _, _, contest, _, _, _, _, _, _, _, _, deadlineArmed, _, _, armings) =>
      && contest.None?
      && (deadlineArmed <==> phase.Playing? && phase.results != map[])
      && (phase.Playing? ==> armings == if deadlineArmed then 1 else 0)
  }

  lemma CheckDeadline(r: Room)
    requires DeadlineOk(r)
    ensures DeadlineOk(CheckAllReady(r).0)
  {
  }

  lemma SubmitDeadline(r: Room, user: int, record: Record)
    requires DeadlineOk(r) && r.phase.Playing? && user !in r.phase.results
    ensures DeadlineOk(Submit(r, r.phase.results, r.phase.aborted, user, record).0)
  {
    var results := r.phase.results;
    assert |results[user := record]| == |results| + 1;
    assert results == map[] <==> |results| == 0;
    assert user in results[user := record];
  }

  lemma LeaveDeadline(r: Room, user: int, monitor: bool)
    requires DeadlineOk(r)
    ensures DeadlineOk(Leave(r, user, monitor).0)
  {
    var r1 := RemoveMember(r, user, monitor);
    match HostRotation.Pick(r1.users, user)
    case Some(next) =>
      CheckDeadline(r1.(host := next));
      CheckDeadline(r1);
    case None =>
      CheckDeadline(r1);
  }

  lemma CommandDeadline(r: Room, step: Step)
    requires DeadlineOk(r)
    requires step.DoAbort? || step.DoReady? || step.DoCancelReady? || step.DoRequestStart? || step.DeadlineFires?
    ensures DeadlineOk(After(r, step).0)
  {
    match step
    case DoAbort(user) =>
      if r.phase.Playing? { CheckDeadline(r.(phase := Playing(r.phase.results, r.phase.aborted + {user}))); }
    case DoReady(user) =>
      if r.phase.WaitForReady? { CheckDeadline(r.(phase := WaitForReady(r.phase.started + {user}))); }
    case DoRequestStart(user) =>
      if r.phase.SelectChart? { CheckDeadline(r.(phase := WaitForReady({user}))); }
    case DeadlineFires =>
      if r.phase.Playing? {
        CheckDeadline(r.(phase := Playing(r.phase.results, r.phase.aborted + set u | u in r.users && !Settled(r.phase, u))));
      }
    case DoCancelReady(_) =>
  }

  lemma DeadlineStepKeeps(r: Room, step: Step)
    requires DeadlineOk(r) && Possible(r, step) && !step.DoEnableContest?
    ensures DeadlineOk(After(r, step).0)
  {
    match step
    case DoPlayed(user, record) =>
      if r.phase.Playing? && !Settled(r.phase, user) && record.Some? {
        SubmitDeadline(r, user, record.value);
      }
    case DoLeave(user) => LeaveDeadline(r, user, Role(r, user));
    case DoAbort(_) => CommandDeadline(r, step);
    case DoReady(_) => CommandDeadline(r, step);
    case DoCancelReady(_) => CommandDeadline(r, step);
    case DoRequestStart(_) => CommandDeadline(r, step);
    case DeadlineFires => CommandDeadline(r, step);
    case _ =>
  }

  /** When the deadline fires the round ends with everybody present settled. */
  lemma DeadlineEndsRound(r: Room)
    requires Inv(r) && DeadlineOk(r) && r.deadlineArmed
    ensures var all := r.phase.aborted + set u | u in r.users && !Settled(r.phase, u);
            && AllSettled(r.(phase := Playing(r.phase.results, all)))
            && DeadlineTimeout(r).0.phase.SelectChart? && DeadlineTimeout(r).0.ends == r.ends + 1
            && !DeadlineTimeout(r).0.deadlineArmed
  {
  }

  // ---- Within a round ----

  /** Results and aborts only grow; no result is replaced or taken from a player who had aborted; the chart stays. */
  ghost predicate RoundGrows(r: Room, r': Room) {
    r.phase.Playing? && r'.phase.Playing? && r.starts == r'.starts ==>
      && (forall u :: u in r.phase.results ==> u in r'.phase.results && r'.phase.results[u] == r.phase.results[u])
      && r.phase.aborted <= r'.phase.aborted
      && (forall u :: u in r'.phase.results && u !in r.phase.results ==> u !in r.phase.aborted)
  }

  lemma CheckGrows(r: Room)
    ensures RoundGrows(r, CheckAllReady(r).0) && (CheckAllReady(r).0.chart == r.chart)
  {
  }

  lemma LeaveGrows(r: Room, user: int, monitor: bool)
    ensures RoundGrows(r, Leave(r, user, monitor).0) && Leave(r, user, monitor).0.chart == r.chart
  {
    var r1 := RemoveMember(r, user, monitor);
    match HostRotation.Pick(r1.users, user)
    case Some(next) =>
      CheckGrows(r1.(host := next));
      CheckGrows(r1);
    case None =>
      CheckGrows(r1);
  }

  lemma PlayedGrows(r: Room, user: int, record: Option<Record>)
    ensures RoundGrows(r, Played(r, user, record).0) && Played(r, user, record).0.chart == r.chart
  {
    match r.phase
    case Playing(results, aborted) =>
      if record.Some? {
        CheckGrows(r.(phase := Playing(results[user := record.value], aborted)));
      }
    case _ =>
  }

  lemma CommandGrows(r: Room, step: Step)
    requires step.DoAbort? || step.DoReady? || step.DoCancelReady? || step.DoRequestStart? || step.DeadlineFires?
    ensures RoundGrows(r, After(r, step).0) && After(r, step).0.chart == r.chart
  {
    match step
    case DoAbort(user) =>
      if r.phase.Playing? { CheckGrows(r.(phase := Playing(r.phase.results, r.phase.aborted + {user}))); }
    case DoReady(user) =>
      if r.phase.WaitForReady? { CheckGrows(r.(phase := WaitForReady(r.phase.started + {user}))); }
    case DoRequestStart(user) =>
      if r.phase.SelectChart? { CheckGrows(r.(phase := WaitForReady({user}))); }
    case DeadlineFires =>
      if r.phase.Playing? {
        CheckGrows(r.(phase := Playing(r.phase.results, r.phase.aborted + set u | u in r.users && !Settled(r.phase, u))));
      }
    case DoCancelReady(_) =>
  }

  /** In every step of a room. */
  lemma StepGrows(r: Room, step: Step)
    ensures RoundGrows(r, After(r, step).0)
    ensures !r.phase.SelectChart? ==> After(r, step).0.chart == r.chart
  {
    match step
    case DoLeave(user) => LeaveGrows(r, user, Role(r, user));
    case DoAbort(_) => CommandGrows(r, step);
    case DoPlayed(user, record) => PlayedGrows(r, user, record);
    case DoReady(_) => CommandGrows(r, step);
    case DoCancelReady(_) => CommandGrows(r, step);
    case DoRequestStart(_) => CommandGrows(r, step);
    case DeadlineFires => CommandGrows(r, step);
    case _ =>
  }

  // ---- Every run of one room ----

  ghost predicate Next(r: Room, step: Step, r': Room) {
    Possible(r, step) && !Drops(r, step) && (step.ReadyFires? ==> SomeoneReady(r)) && r' == After(r, step).0
  }

  /** A run: a room in order, and its states before and after each step up to its removal. */
  ghost predicate Run(rooms: seq<Room>, steps: seq<Step>) {
    |rooms| == |steps| + 1 && Inv(rooms[0]) && forall i :: 0 <= i < |steps| ==> Next(rooms[i], steps[i], rooms[i + 1])
  }

  lemma {:induction false} RunInv(rooms: seq<Room>, steps: seq<Step>, i: nat)
    requires Run(rooms, steps) && i < |rooms|
    ensures Inv(rooms[i])
    decreases i
  {
    if i > 0 {
      RunInv(rooms, steps, i - 1);
      assert Next(rooms[i - 1], steps[i - 1], rooms[i]);
      StepKeeps(rooms[i - 1], steps[i - 1]);
    }
  }

  lemma CheckCounts(r: Room)
    ensures r.starts <= CheckAllReady(r).0.starts && r.ends <= CheckAllReady(r).0.ends
  {
  }

  lemma LeaveCounts(r: Room, user: int, monitor: bool)
    ensures r.starts <= Leave(r, user, monitor).0.starts && r.ends <= Leave(r, user, monitor).0.ends
  {
    var r1 := RemoveMember(r, user, monitor);
    CheckCounts(r1);
    match HostRotation.Pick(r1.users, user)
    case Some(next) => CheckCounts(r1.(host := next));
    case None =>
  }

  lemma PlayedCounts(r: Room, user: int, record: Option<Record>)
    ensures r.starts <= Played(r, user, record).0.starts && r.ends <= Played(r, user, record).0.ends
  {
    if r.phase.Playing? && record.Some? {
      CheckCounts(r.(phase := Playing(r.phase.results[user := record.value], r.phase.aborted)));
    }
  }

  lemma StartCounts(r: Room, user: int)
    ensures r.starts <= RequestStart(r, user).0.starts && r.ends <= RequestStart(r, user).0.ends
    ensures r.starts <= Ready(r, user).0.starts && r.ends <= Ready(r, user).0.ends
  {
    CheckCounts(r.(phase := WaitForReady({user})));
    if r.phase.WaitForReady? { CheckCounts(r.(phase := WaitForReady(r.phase.started + {user}))); }
  }

  lemma AbortCounts(r: Room, more: set<int>)
    ensures r.phase.Playing? ==>
              var r' := CheckAllReady(r.(phase := Playing(r.phase.results, r.phase.aborted + more))).0;
              r.starts <= r'.starts && r.ends <= r'.ends
  {
  }

  lemma AdminCounts(r: Room, step: Step)
    requires IsAdministrative(step) || step.DoJoin? || step.DoChooseChart? || step.DoCancelReady? || step.ReadyFires?
    ensures r.starts <= After(r, step).0.starts && r.ends <= After(r, step).0.ends
  {
  }

  lemma StepCounts(r: Room, step: Step)
    ensures r.starts <= After(r, step).0.starts && r.ends <= After(r, step).0.ends
  {
    match step
    case DoLeave(user) => LeaveCounts(r, user, Role(r, user));
    case DoRequestStart(user) => StartCounts(r, user);
    case DoReady(user) => StartCounts(r, user);
    case DoPlayed(user, record) => PlayedCounts(r, user, record);
    case DoAbort(user) => AbortCounts(r, {user});
    case DeadlineFires => AbortCounts(r, set u | u in r.users && !Settled(r.phase, u));
    case _ => AdminCounts(r, step);
  }

  lemma {:induction false} RunCounts(rooms: seq<Room>, steps: seq<Step>, i: nat, j: nat)
    requires Run(rooms, steps) && i <= j < |rooms|
    ensures rooms[i].starts <= rooms[j].starts && rooms[i].ends <= rooms[j].ends
    decreases j
  {
    if i < j {
      RunCounts(rooms, steps, i, j - 1);
      assert Next(rooms[j - 1], steps[j - 1], rooms[j]);
      StepCounts(rooms[j - 1], steps[j - 1]);
    }
  }

  /**
   Two moments of the same round, however many steps apart: what was settled by the first is settled
   in the same way at the second, results that came in between are not from players who had aborted,
   and the chart is the one the round started with.
   */
  lemma {:induction false} RoundKept(rooms: seq<Room>, steps: seq<Step>, i: nat, j: nat)
    requires Run(rooms, steps) && i <= j < |rooms|
    requires rooms[i].phase.Playing? && rooms[j].phase.Playing? && rooms[i].starts == rooms[j].starts
    ensures RoundGrows(rooms[i], rooms[j]) && rooms[i].chart == rooms[j].chart && rooms[i].chart.Some?
    decreases j
  {
    RunInv(rooms, steps, i);
    if i < j {
      var k := j - 1;
      RunInv(rooms, steps, k);
      RunInv(rooms, steps, j);
      RunCounts(rooms, steps, i, k);
      RunCounts(rooms, steps, k, j);
      RoundKept(rooms, steps, i, k);
      assert Next(rooms[k], steps[k], rooms[j]);
      StepGrows(rooms[k], steps[k]);
    }
  }

  /** In a run in which the room is never made a contest, every round with a result in it has its deadline armed, once. */
  lemma {:induction false} DeadlineRun(rooms: seq<Room>, steps: seq<Step>, i: nat)
    requires Run(rooms, steps) && DeadlineOk(rooms[0]) && i < |rooms|
    requires forall k :: 0 <= k < |steps| ==> !steps[k].DoEnableContest?
    ensures Inv(rooms[i]) && DeadlineOk(rooms[i])
    decreases i
  {
    if i > 0 {
      DeadlineRun(rooms, steps, i - 1);
      assert Next(rooms[i - 1], steps[i - 1], rooms[i]);
      StepKeeps(rooms[i - 1], steps[i - 1]);
      DeadlineStepKeeps(rooms[i - 1], steps[i - 1]);
    }
  }

  lemma NextChart(r: Room, step: Step, r': Room)
    requires Next(r, step, r') && !r.phase.SelectChart?
    ensures r'.chart == r.chart
  {
    StepGrows(r, step);
  }

  lemma ChartStep(rooms: seq<Room>, steps: seq<Step>, k: nat)
    requires Run(rooms, steps) && k < |steps| && !rooms[k].phase.SelectChart?
    ensures rooms[k + 1].chart == rooms[k].chart
  {
    NextChart(rooms[k], steps[k], rooms[k + 1]);
  }

  lemma {:induction false} ChartSame(rooms: seq<Room>, i: nat, j: nat)
    requires i <= j < |rooms| && forall k :: i <= k < j ==> rooms[k + 1].chart == rooms[k].chart
    ensures rooms[j].chart == rooms[i].chart
    decreases j
  {
    if i < j {
      ChartSame(rooms, i, j - 1);
      assert rooms[j - 1 + 1].chart == rooms[j - 1].chart;
    }
  }

  /** From request-start to game end the chart is there and fixed, whatever happens. */
  lemma ChartKept(rooms: seq<Room>, steps: seq<Step>, i: nat, j: nat)
    requires Run(rooms, steps) && i <= j < |rooms|
    requires forall k :: i <= k <= j ==> !rooms[k].phase.SelectChart?
    ensures rooms[j].chart == rooms[i].chart && rooms[i].chart.Some?
  {
    RunInv(rooms, steps, i);
    forall k | i <= k < j
      ensures rooms[k + 1].chart == rooms[k].chart
    {
      ChartStep(rooms, steps, k);
    }
    ChartSame(rooms, i, j);
  }

  // ---- The wedge is reached ----

  lemma CreatedOk(id: string, host: int, max: nat)
    requires max >= 1
    ensures Inv(Created(id, host, max)) && DeadlineOk(Created(id, host, max))
    ensures Created(id, host, max).users == [host] && Created(id, host, max).monitors == []
  {
    assert Created(id, host, max).users[0] == host;
  }

  lemma RunSnoc(rooms: seq<Room>, steps: seq<Step>, step: Step, r: Room)
    requires Run(rooms, steps) && Next(rooms[|steps|], step, r)
    ensures Run(rooms + [r], steps + [step])
  {
  }

  /** Two players with a chart. */
  const TWO := Room("room", 8, 1, SelectChart, false, false, None, [1, 2], [], {1, 2}, {}, multiset{1, 2}, Some(7), None, false, false, 0, 0, 0)

  /** The host has asked to start, the countdown runs. */
  const WAITING := TWO.(phase := WaitForReady({1}), readyArmed := true)

  /** The host has left. */
  const LEFT := WAITING.(host := 2, users := [2], usersMap := {2}, snapshot := multiset{2})

  lemma JoinTwo()
    ensures Join(Created("room", 1, 8), 2, false, false).0 == TWO.(chart := None)
  {
    var r := Created("room", 1, 8);
    assert r.usersMap + {2} == {1, 2} && multiset({1, 2}) + multiset({}) == multiset{1, 2};
  }

  lemma AskToStart()
    ensures RequestStart(TWO, 1).0 == WAITING
  {
    var r := TWO.(phase := WaitForReady({1}));
    assert (r.users + r.monitors)[1] == 2;
    assert !AllStarted(r);
  }

  lemma HostLeaves()
    ensures Leave(WAITING, 1, false) == (LEFT, false, false)
  {
    var r := RemoveMember(WAITING, 1, false);
    assert [1, 2][1..] == [2] && {1, 2} - {1} == {2} && multiset({2}) + multiset({}) == multiset{2};
    PickedIsMember(r, 1);
    assert HostRotation.Pick([2], 1) == Some(2);
    assert (LEFT.users + LEFT.monitors)[0] == 2 && !AllStarted(LEFT);
  }

  /**
   It happens, in a room opened by player 1: player 2 joins, the host chooses a chart, asks to start and
   leaves, and the countdown fires before player 2 is ready.
   */
  lemma WedgeReached() returns (rooms: seq<Room>, steps: seq<Step>)
    ensures Run(rooms, steps) && rooms[0] == Created("room", 1, 8)
    ensures var r := rooms[|steps|];
            Possible(r, ReadyFires) && !SomeoneReady(r) && ReadyTimeout(r).phase.Playing? && !Alive(ReadyTimeout(r))
  {
    CreatedOk("room", 1, 8);
    rooms, steps := [Created("room", 1, 8)], [];
    JoinTwo();
    rooms, steps := Proceed(rooms, steps, DoJoin(2, false, false), TWO.(chart := None));
    rooms, steps := Proceed(rooms, steps, DoChooseChart(1, Some(7)), TWO);
    rooms, steps := AskAndLeave(rooms, steps);
    RunInv(rooms, steps, |steps|);
    ForcedStartWedges(LEFT);
  }

  lemma Proceed(rooms: seq<Room>, steps: seq<Step>, step: Step, r: Room) returns (rooms': seq<Room>, steps': seq<Step>)
    requires Run(rooms, steps) && Next(rooms[|steps|], step, r)
    ensures Run(rooms', steps') && rooms'[0] == rooms[0] && rooms'[|steps'|] == r
  {
    RunSnoc(rooms, steps, step, r);
    rooms', steps' := rooms + [r], steps + [step];
  }

  lemma AskAndLeave(rooms: seq<Room>, steps: seq<Step>) returns (rooms': seq<Room>, steps': seq<Step>)
    requires Run(rooms, steps) && rooms[|steps|] == TWO
    ensures Run(rooms', steps') && rooms'[0] == rooms[0] && rooms'[|steps'|] == LEFT
  {
    AskToStart();
    rooms', steps' := Proceed(rooms, steps, DoRequestStart(1), WAITING);
    HostLeaves();
    assert !Role(WAITING, 1) by { assert WAITING.users[0] == 1; }
    rooms', steps' := Proceed(rooms', steps', DoLeave(1), LEFT);
  }
}
