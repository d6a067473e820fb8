/**
 A multiplayer room: its members and host, and the state machine select chart, wait for
 ready, playing. Every command and timer callback is one step.

 The functions give each operation as a function of the room; the class is the room itself,
 proved to compute them. `starts`, `ends` and `armings` are auxiliary counters: rounds started,
 rounds ended, and how often the settlement deadline was armed in the current round.
 */
module Rooms {
  import opened Basics
  import HostRotation

  datatype Record = Record(player: int, chart: Option<int>, score: int)

  datatype Phase =
    | SelectChart
    | WaitForReady(started: set<int>)
    | Playing(results: map<int, Record>, aborted: set<int>)

  datatype Contest = Contest(whitelist: set<int>, manualStart: bool, autoDisband: bool)

  datatype Room = Room(
    id: string, max: nat, host: int, phase: Phase, locked: bool, cycle: bool, contest: Option<Contest>,
    users: seq<int>, monitors: seq<int>, usersMap: set<int>, monitorUsers: set<int>, snapshot: multiset<int>,
    chart: Option<int>, nextHost: Option<int>, readyArmed: bool, deadlineArmed: bool,
    starts: nat, ends: nat, armings: nat)

  /** What a command answers: accepted, refused, or accepted with the room to be disbanded. */
  datatype Verdict = Done | Refused | Disband

  function NewRoom(id: string, host: int, max: nat): Room {
    Room(id, max, host, SelectChart, false, false, None, [host], [], {}, {}, multiset{}, None, None, false, false, 0, 0, 0)
  }

  // ---- Members ----

  function Refresh(r: Room): Room {
    r.(snapshot := multiset(r.usersMap) + multiset(r.monitorUsers))
  }

  /** What creating a room leaves: the host is in the map and in the snapshot. */
  function Created(id: string, host: int, max: nat): Room {
    Refresh(NewRoom(id, host, max).(usersMap := {host}))
  }

  function AddUser(r: Room, user: int, monitor: bool): (Room, bool) {
    if monitor then
      (Refresh(r.(monitors := if user in r.monitors then r.monitors else r.monitors + [user], monitorUsers := r.monitorUsers + {user})), true)
    else if |r.users| >= r.max && user !in r.users then (r, false)
    else (Refresh(r.(users := if user in r.users then r.users else r.users + [user], usersMap := r.usersMap + {user})), true)
  }

  /** Removes the first occurrence. */
  function Without(s: seq<int>, v: int): seq<int> {
    if s == [] then [] else if s[0] == v then s[1..] else [s[0]] + Without(s[1..], v)
  }

  function RemoveMember(r: Room, user: int, monitor: bool): Room {
    if monitor then Refresh(r.(monitors := Without(r.monitors, user), monitorUsers := r.monitorUsers - {user}))
    else Refresh(r.(users := Without(r.users, user), usersMap := r.usersMap - {user}))
  }

  // ---- Rounds ----

  /** The player has a result or has aborted, in a running round. */
  predicate Settled(p: Phase, user: int) {
    match p
    case Playing(results, aborted) => user in results || user in aborted
    case _ => false
  }

  predicate AllStarted(r: Room)
    requires r.phase.WaitForReady?
  {
    forall i :: 0 <= i < |r.users + r.monitors| ==> (r.users + r.monitors)[i] in r.phase.started
  }

  predicate AllSettled(r: Room)
    requires r.phase.Playing?
  {
    forall i :: 0 <= i < |r.users| ==> Settled(r.phase, r.users[i])
  }

  function StartPlaying(r: Room): Room {
    r.(readyArmed := false, deadlineArmed := false, phase := Playing(map[], {}), starts := r.starts + 1, armings := 0)
  }

  /** The designated next host if usable, else the cyclic successor; a designation is used up either way. */
  function RotateHost(r: Room): Room {
    var r1 := r.(nextHost := None);
    if r.nextHost.Some? && r.nextHost.value != r.host && r.nextHost.value in r.users then r1.(host := r.nextHost.value)
    else
      match HostRotation.Pick(r.users, r.host)
      case Some(next) => r1.(host := next)
      case None => r1
  }

  function EndRound(r: Room): (Room, bool) {
    var r1 := r.(deadlineArmed := false, phase := SelectChart, ends := r.ends + 1);
    if r.contest.Some? && r.contest.value.autoDisband then (r1, true)
    else if r.cycle && |r.users| > 1 then (RotateHost(r1), false)
    else (r1, false)
  }

  function CheckAllReady(r: Room): (Room, bool) {
    match r.phase
    case SelectChart => (r, false)
    case WaitForReady(_) =>
      if !AllStarted(r) || (r.contest.Some? && r.contest.value.manualStart) then (r, false) else (StartPlaying(r), false)
    case Playing(_, _) => if AllSettled(r) then EndRound(r) else (r, false)
  }

  function Judge(disband: bool): Verdict {
    if disband then Disband else Done
  }

  // ---- Joining and leaving ----

  function ValidJoin(r: Room, user: int, monitor: bool, canMonitor: bool): bool {
    && (r.contest.Some? ==> user in r.contest.value.whitelist)
    && !r.locked
    && (monitor ==> canMonitor)
  }

  /** A player who joins a running round counts as aborted. */
  function HandleJoin(r: Room, user: int, monitor: bool): Room {
    match r.phase
    case Playing(results, aborted) => if monitor then r else r.(phase := Playing(results, aborted + {user}))
    case _ => r
  }

  function Join(r: Room, user: int, monitor: bool, canMonitor: bool): (Room, Verdict) {
    if !ValidJoin(r, user, monitor, canMonitor) then (r, Refused)
    else
      var (r1, ok) := AddUser(r, user, monitor);
      if ok then (HandleJoin(r1, user, monitor), Done) else (r, Refused)
  }

  /** The room after the leave, whether it is to be dropped, and whether it is to be disbanded. */
  function Leave(r: Room, user: int, monitor: bool): (Room, bool, bool) {
    var r1 := RemoveMember(r, user, monitor);
    if r1.host == user then
      match HostRotation.Pick(r1.users, user)
      case None => (r1, true, false)
      case Some(next) => Depart(r1.(host := next))
    else Depart(r1)
  }

  function Depart(r: Room): (Room, bool, bool) {
    var (r1, disband) := CheckAllReady(r);
    (r1, r1.users == [] && r1.monitors == [], disband)
  }

  // ---- Commands ----

  function ChooseChart(r: Room, user: int, fetched: Option<int>): (Room, Verdict) {
    if r.host != user || !r.phase.SelectChart? || fetched.None? then (r, Refused)
    else (r.(chart := fetched), Done)
  }

  function RequestStart(r: Room, user: int): (Room, Verdict) {
    if r.host != user || r.chart.None? || !r.phase.SelectChart? then (r, Refused)
    else
      var (r1, disband) := CheckAllReady(r.(phase := WaitForReady({user})));
      if disband then (r1, Disband)
      else if r1.phase.WaitForReady? && !(r1.contest.Some? && r1.contest.value.manualStart) then (r1.(readyArmed := true), Done)
      else (r1, Done)
  }

  function Ready(r: Room, user: int): (Room, Verdict) {
    match r.phase
    case Playing(_, _) => (r, Refused)
    case SelectChart => (r, Done)
    case WaitForReady(started) =>
      if user in started then (r, Refused)
      else
        var (r1, disband) := CheckAllReady(r.(phase := WaitForReady(started + {user})));
        (r1, Judge(disband))
  }

  function CancelReady(r: Room, user: int): (Room, Verdict) {
    match r.phase
    case Playing(_, _) => (r, Refused)
    case SelectChart => (r, Done)
    case WaitForReady(started) =>
      if user !in started then (r, Refused)
      else if r.host == user then (r.(readyArmed := false, phase := SelectChart), Done)
      else (r.(phase := WaitForReady(started - {user})), Done)
  }

  /** A fetched record is this player's own and, if it names a chart, the room's. */
  predicate Acceptable(r: Room, user: int, record: Record) {
    match record
    case Record(player, chart, _) => player == user && (r.chart.Some? && chart.Some? ==> chart == r.chart)
  }

  function Played(r: Room, user: int, fetched: Option<Record>): (Room, Verdict) {
    if r.phase.Playing? && Settled(r.phase, user) then (r, Done)
    else if fetched.None? || !Acceptable(r, user, fetched.value) then (r, Refused)
    else
      match r.phase
      case Playing(results, aborted) => Submit(r, results, aborted, user, fetched.value)
      case _ => (r, Done)
  }

  /** Storing a result: it may end the round; the first one that does not arms the deadline of a normal room. */
  function Submit(r: Room, results: map<int, Record>, aborted: set<int>, user: int, record: Record): (Room, Verdict) {
    var (r1, disband) := CheckAllReady(r.(phase := Playing(results[user := record], aborted)));
    if disband then (r1, Disband)
    else if |results[user := record]| == 1 && r.contest.None? && r1.phase.Playing? then (ArmDeadline(r1), Done)
    else (r1, Done)
  }

  function ArmDeadline(r: Room): Room {
    r.(deadlineArmed := true, armings := r.armings + 1)
  }

  function Abort(r: Room, user: int): (Room, Verdict) {
    match r.phase
    case Playing(results, aborted) =>
      if user in results || user in aborted then (r, Refused)
      else
        var (r1, disband) := CheckAllReady(r.(phase := Playing(results, aborted + {user})));
        (r1, Judge(disband))
    case _ => (r, Done)
  }

  // ---- Timers ----

  /** The ready countdown runs out: play starts, and players who are not ready sit out as aborted. */
  function ReadyTimeout(r: Room): Room {
    match r.phase
    case WaitForReady(started) =>
      StartPlaying(r).(phase := Playing(map[], set u | u in r.users && u !in started))
    case _ => r.(readyArmed := false)
  }

  /** The settlement deadline runs out: whoever has not settled is aborted, which ends the round. */
  function DeadlineTimeout(r: Room): (Room, Verdict) {
    match r.phase
    case Playing(results, aborted) =>
      var (r1, disband) := CheckAllReady(r.(phase := Playing(results, aborted + set u | u in r.users && !Settled(r.phase, u))));
      (r1, Judge(disband))
    case _ => (r.(deadlineArmed := false), Done)
  }

  // ---- Administration ----

  function StartContest(r: Room, force: bool): (Room, Verdict) {
    if r.contest.None? || !r.phase.WaitForReady? || r.chart.None? then (r, Refused)
    else if !force && !AllStarted(r) then (r, Refused)
    else (StartPlaying(r), Done)
  }

  function Whitelist(r: Room, ids: seq<int>): set<int> {
    (set u | u in ids) + (set u | u in r.users) + (set u | u in r.monitors)
  }

  function EnableContest(r: Room, ids: seq<int>): Room {
    r.(contest := Some(Contest(Whitelist(r, ids), true, true)))
  }

  function TransferHost(r: Room, user: int): (Room, Verdict) {
    if user !in r.users || r.host == user then (r, Refused) else (r.(host := user, nextHost := None), Done)
  }
}
