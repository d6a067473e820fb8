/** The room as the server holds it: fields that the handlers and timers update in place. */
module LiveRoom {
  import opened Basics
  import opened Rooms
  import RoomSafety
  import HostRotation

  method IndexOf(s: seq<int>, v: int) returns (i: nat)
    ensures i <= |s| && (i < |s| ==> s[i] == v)
    ensures forall j :: 0 <= j < i ==> s[j] != v
  {
    i := 0;
    while i < |s| && s[i] != v
      invariant 0 <= i <= |s|
      invariant forall j :: 0 <= j < i ==> s[j] != v
    {
      i := i + 1;
    }
  }

  lemma {:induction false} WithoutAt(s: seq<int>, v: int, i: nat)
    requires i <= |s| && (i < |s| ==> s[i] == v)
    requires forall j :: 0 <= j < i ==> s[j] != v
    ensures Without(s, v) == if i < |s| then s[..i] + s[i + 1..] else s
    decreases |s|
  {
    if s != [] && i > 0 {
      WithoutAt(s[1..], v, i - 1);
      assert s == [s[0]] + s[1..];
      if i < |s| {
        assert s[..i] + s[i + 1..] == [s[0]] + (s[1..][..i - 1] + s[1..][i..]);
      }
    }
  }

  method RemoveInt(s: seq<int>, v: int) returns (t: seq<int>)
    ensures t == Without(s, v)
  {
    var i := IndexOf(s, v);
    WithoutAt(s, v, i);
    if i < |s| { return s[..i] + s[i + 1..]; }
    return s;
  }

  class Room {
    const id: string
    const max: nat
    var host: int
    var phase: Phase
    var locked: bool
    var cycle: bool
    var contest: Option<Contest>
    var users: seq<int>
    var monitors: seq<int>
    var usersMap: set<int>
    var monitorUsers: set<int>
    var snapshot: multiset<int>
    var chart: Option<int>
    var nextHost: Option<int>
    var readyArmed: bool
    var deadlineArmed: bool
    ghost var starts: nat
    ghost var ends: nat
    ghost var armings: nat

    ghost function View(): Rooms.Room
      reads this
    {
      Rooms.Room.Room(id, max, host, phase, locked, cycle, contest, users, monitors, usersMap, monitorUsers, snapshot,
                      chart, nextHost, readyArmed, deadlineArmed, starts, ends, armings)
    }

    constructor (id: string, host: int, max: nat)
      ensures View() == NewRoom(id, host, max)
    {
      this.id, this.max, this.host := id, max, host;
      phase, locked, cycle, contest := SelectChart, false, false, None;
      users, monitors, usersMap, monitorUsers, snapshot := [host], [], {}, {}, multiset{};
      chart, nextHost, readyArmed, deadlineArmed := None, None, false, false;
      starts, ends, armings := 0, 0, 0;
    }

    method RefreshSnapshot()
      modifies this
      ensures View() == Refresh(old(View()))
    {
      snapshot := multiset(usersMap) + multiset(monitorUsers);
    }

    method AddUser(user: int, monitor: bool) returns (ok: bool)
      modifies this
      ensures (View(), ok) == Rooms.AddUser(old(View()), user, monitor)
    {
      if monitor {
        if user !in monitors { monitors := monitors + [user]; }
        monitorUsers := monitorUsers + {user};
        RefreshSnapshot();
        return true;
      }
      if |users| >= max && user !in users { return false; }
      if user !in users { users := users + [user]; }
      usersMap := usersMap + {user};
      RefreshSnapshot();
      return true;
    }

    method BeginPlaying()
      modifies this
      ensures View() == StartPlaying(old(View()))
    {
      readyArmed, deadlineArmed := false, false;
      phase := Playing(map[], {});
      starts, armings := starts + 1, 0;
    }

    method RotateCycleHost()
      modifies this
      ensures View() == RotateHost(old(View()))
    {
      var next := host;
      var designated := false;
      if nextHost.Some? {
        var candidate := nextHost.value;
        nextHost := None;
        if candidate != host && candidate in users {
          next := candidate;
          designated := true;
        }
      }
      if !designated {
        var picked := HostRotation.PickNextHost(users, host);
        if picked.None? { return; }
        next := picked.value;
      }
      host := next;
    }

    method CheckWaitForReady()
      requires phase.WaitForReady?
      modifies this
      ensures (View(), false) == Rooms.CheckAllReady(old(View()))
    {
      var all := users + monitors;
      for i := 0 to |all|
        invariant View() == old(View())
        invariant forall j :: 0 <= j < i ==> all[j] in phase.started
      {
        if all[i] !in phase.started { return; }
      }
      if contest.Some? && contest.value.manualStart { return; }
      BeginPlaying();
    }

    method CheckPlaying() returns (disband: bool)
      requires phase.Playing?
      modifies this
      ensures (View(), disband) == Rooms.CheckAllReady(old(View()))
    {
      var finished := true;
      for i := 0 to |users|
        invariant View() == old(View())
        invariant finished <==> forall j :: 0 <= j < i ==> Settled(phase, users[j])
      {
        if users[i] !in phase.results && users[i] !in phase.aborted { finished := false; }
      }
      if !finished { return false; }
      deadlineArmed := false;
      phase := SelectChart;
      ends := ends + 1;
      if contest.Some? && contest.value.autoDisband { return true; }
      if cycle && |users| > 1 { RotateCycleHost(); }
      return false;
    }

    method CheckAllReady() returns (disband: bool)
      modifies this
      ensures (View(), disband) == Rooms.CheckAllReady(old(View()))
    {
      disband := false;
      match phase {
        case SelectChart =>
        case WaitForReady(_) => CheckWaitForReady();
        case Playing(_, _) => disband := CheckPlaying();
      }
    }

    method DropMember(user: int, monitor: bool)
      modifies this
      ensures View() == RemoveMember(old(View()), user, monitor)
    {
      if monitor {
        monitors := RemoveInt(monitors, user);
        monitorUsers := monitorUsers - {user};
      } else {
        users := RemoveInt(users, user);
        usersMap := usersMap - {user};
      }
      RefreshSnapshot();
    }

    method AfterLeave() returns (drop: bool, disband: bool)
      modifies this
      ensures (View(), drop, disband) == Depart(old(View()))
    {
      disband := CheckAllReady();
      drop := users == [] && monitors == [];
    }

    method OnUserLeave(user: int, monitor: bool) returns (drop: bool, disband: bool)
      modifies this
      ensures (View(), drop, disband) == Leave(old(View()), user, monitor)
    {
      DropMember(user, monitor);
      if host == user {
        if |users| == 0 { return true, false; }
        var next := HostRotation.PickNextHost(users, user);
        if next.None? { return true, false; }
        host := next.value;
      }
      drop, disband := AfterLeave();
    }

    method JoinRunning(user: int, monitor: bool)
      modifies this
      ensures View() == HandleJoin(old(View()), user, monitor)
    {
      if !phase.Playing? || monitor { return; }
      if user !in phase.aborted { phase := phase.(aborted := phase.aborted + {user}); }
    }

    method HandleJoinRequest(user: int, monitor: bool, canMonitor: bool) returns (v: Verdict)
      modifies this
      ensures (View(), v) == Join(old(View()), user, monitor, canMonitor)
    {
      if contest.Some? && user !in contest.value.whitelist { return Refused; }
      if locked { return Refused; }
      if monitor && !canMonitor { return Refused; }
      var ok := AddUser(user, monitor);
      if !ok { return Refused; }
      JoinRunning(user, monitor);
      return Done;
    }

    method HandleSelectChart(user: int, fetched: Option<int>) returns (v: Verdict)
      modifies this
      ensures (View(), v) == ChooseChart(old(View()), user, fetched)
    {
      if host != user || !phase.SelectChart? { return Refused; }
      if fetched.None? { return Refused; }
      chart := fetched;
      return Done;
    }

    method HandleRequestStart(user: int) returns (v: Verdict)
      modifies this
      ensures (View(), v) == RequestStart(old(View()), user)
    {
      if host != user || chart.None? || !phase.SelectChart? { return Refused; }
      phase := WaitForReady({user});
      var disband := CheckAllReady();
      if disband { return Disband; }
      if phase.WaitForReady? && !(contest.Some? && contest.value.manualStart) { readyArmed := true; }
      return Done;
    }

    method HandleReady(user: int) returns (v: Verdict)
      modifies this
      ensures (View(), v) == Ready(old(View()), user)
    {
      if phase.Playing? { return Refused; }
      if !phase.WaitForReady? { return Done; }
      if user in phase.started { return Refused; }
      phase := WaitForReady(phase.started + {user});
      var disband := CheckAllReady();
      return if disband then Disband else Done;
    }

    method HandleCancelReady(user: int) returns (v: Verdict)
      modifies this
      ensures (View(), v) == CancelReady(old(View()), user)
    {
      if phase.Playing? { return Refused; }
      if !phase.WaitForReady? { return Done; }
      if user !in phase.started { return Refused; }
      phase := WaitForReady(phase.started - {user});
      if host == user {
        readyArmed := false;
        phase := SelectChart;
      }
      return Done;
    }

    method HandlePlayed(user: int, fetched: Option<Record>) returns (v: Verdict)
      modifies this
      ensures (View(), v) == Played(old(View()), user, fetched)
    {
      if phase.Playing? && (user in phase.results || user in phase.aborted) { return Done; }
      if fetched.None? { return Refused; }
      var record := fetched.value;
      if record.player != user { return Refused; }
      if chart.Some? && record.chart.Some? && record.chart != chart { return Refused; }
      if !phase.Playing? { return Done; }
      v := StoreResult(user, record);
    }

    method StoreResult(user: int, record: Record) returns (v: Verdict)
      requires phase.Playing?
      modifies this
      ensures (View(), v) == Submit(old(View()), old(phase.results), old(phase.aborted), user, record)
    {
      phase := Playing(phase.results[user := record], phase.aborted);
      ghost var stored := View();
      assert stored == old(View()).(phase := Playing(old(phase.results)[user := record], old(phase.aborted)));
      var firstResult := |phase.results| == 1;
      var disband := CheckAllReady();
      if disband { return Disband; }
      if firstResult && contest.None? && phase.Playing? { StartPlayDeadline(); }
      return Done;
    }

    method StartPlayDeadline()
      modifies this
      ensures View() == ArmDeadline(old(View()))
    {
      deadlineArmed := true;
      armings := armings + 1;
    }

    method HandleAbort(user: int) returns (v: Verdict)
      modifies this
      ensures (View(), v) == Abort(old(View()), user)
    {
      if !phase.Playing? { return Done; }
      if user in phase.results || user in phase.aborted { return Refused; }
      phase := phase.(aborted := phase.aborted + {user});
      var disband := CheckAllReady();
      return if disband then Disband else Done;
    }

    /** The forced start: collect the players who are not ready, start, and mark them aborted. */
    method OnReadyTimeout()
      modifies this
      ensures View() == ReadyTimeout(old(View()))
    {
      if !phase.WaitForReady? { readyArmed := false; return; }
      var unready: set<int> := {};
      for i := 0 to |users|
        invariant View() == old(View())
        invariant unready == set u | u in users[..i] && u !in phase.started
      {
        if users[i] !in phase.started { unready := unready + {users[i]}; }
        assert users[..i + 1] == users[..i] + [users[i]];
      }
      assert users[..|users|] == users;
      BeginPlaying();
      phase := phase.(aborted := unready);
    }

    /** Marks every unsettled player aborted and lets the normal settlement run. */
    method OnDeadline() returns (v: Verdict)
      modifies this
      ensures (View(), v) == DeadlineTimeout(old(View()))
    {
      if !phase.Playing? { deadlineArmed := false; return Done; }
      ghost var aborted := phase.aborted;
      for i := 0 to |users|
        invariant phase.Playing? && phase.results == old(phase.results)
        invariant View() == old(View()).(phase := phase)
        invariant phase.aborted == aborted + set u | u in users[..i] && !Settled(old(phase), u)
      {
        assert users[..i + 1] == users[..i] + [users[i]];
        if users[i] !in phase.results && users[i] !in phase.aborted {
          phase := phase.(aborted := phase.aborted + {users[i]});
        }
      }
      assert users[..|users|] == users;
      var disband := CheckAllReady();
      return if disband then Disband else Done;
    }

    method ForceContest(force: bool) returns (v: Verdict)
      modifies this
      ensures (View(), v) == StartContest(old(View()), force)
    {
      if contest.None? || !phase.WaitForReady? || chart.None? { return Refused; }
      if !force {
        var all := users + monitors;
        for i := 0 to |all|
          invariant View() == old(View())
          invariant forall j :: 0 <= j < i ==> all[j] in phase.started
        {
          if all[i] !in phase.started { return Refused; }
        }
      }
      BeginPlaying();
      return Done;
    }

    method ChangeHost(user: int) returns (v: Verdict)
      modifies this
      ensures (View(), v) == TransferHost(old(View()), user)
    {
      if user !in users || host == user { return Refused; }
      host, nextHost := user, None;
      return Done;
    }

    /** The given IDs, or the participants when there are none, and the participants in any case. */
    method BuildWhitelist(ids: seq<int>) returns (list: set<int>)
      ensures list == Whitelist(View(), ids)
    {
      list := {};
      var all := users + monitors;
      var first := if |ids| > 0 then ids else all;
      for i := 0 to |first|
        invariant list == set u | u in first[..i]
      {
        list := list + {first[i]};
        assert first[..i + 1] == first[..i] + [first[i]];
      }
      assert first[..|first|] == first;
      ghost var given := list;
      for i := 0 to |all|
        invariant list == given + set u | u in all[..i]
      {
        list := list + {all[i]};
        assert all[..i + 1] == all[..i] + [all[i]];
      }
      assert all[..|all|] == all;
    }

    method MakeContest(ids: seq<int>)
      modifies this
      ensures View() == EnableContest(old(View()), ids)
    {
      var list := BuildWhitelist(ids);
      contest := Some(Contest(list, true, true));
    }

    // ---- Whole runs ----

    /** A command of a member, or of somebody who joins. */
    method PerformCommand(step: RoomSafety.Step) returns (v: Verdict)
      requires !RoomSafety.IsAdministrative(step) && !step.ReadyFires? && !step.DeadlineFires?
      modifies this
      ensures (View(), v) == RoomSafety.After(old(View()), step)
    {
      match step {
        case DoJoin(user, monitor, canMonitor) => v := HandleJoinRequest(user, monitor, canMonitor);
        case DoLeave(user) =>
          var _, disband := OnUserLeave(user, user !in users);
          v := if disband then Disband else Done;
        case DoChooseChart(user, fetched) => v := HandleSelectChart(user, fetched);
        case DoRequestStart(user) => v := HandleRequestStart(user);
        case DoReady(user) => v := HandleReady(user);
        case DoCancelReady(user) => v := HandleCancelReady(user);
        case DoPlayed(user, record) => v := HandlePlayed(user, record);
        case DoAbort(user) => v := HandleAbort(user);
      }
    }

    /** A step of an administrator. */
    method Administer(step: RoomSafety.Step) returns (v: Verdict)
      requires RoomSafety.IsAdministrative(step)
      modifies this
      ensures (View(), v) == RoomSafety.After(old(View()), step)
    {
      v := Done;
      match step {
        case DoStartContest(force) => v := ForceContest(force);
        case DoEnableContest(ids) => MakeContest(ids);
        case DoDisableContest => contest := None;
        case DoTransferHost(user) => v := ChangeHost(user);
        case DoSetNextHost(user) => nextHost := Some(user);
        case DoLock(on) => locked := on;
        case DoCycle(on) => cycle := on;
      }
    }

    /** Anything that can happen to the room. */
    method Perform(step: RoomSafety.Step) returns (v: Verdict)
      modifies this
      ensures (View(), v) == RoomSafety.After(old(View()), step)
    {
      if step.ReadyFires? {
        OnReadyTimeout();
        return Done;
      }
      if step.DeadlineFires? {
        v := OnDeadline();
      } else if RoomSafety.IsAdministrative(step) {
        v := Administer(step);
      } else {
        v := PerformCommand(step);
      }
    }

    /** Step by step, the object goes through the states of any run, and is in order after each of them. */
    method PerformAll(steps: seq<RoomSafety.Step>, ghost rooms: seq<Rooms.Room>)
      requires RoomSafety.Run(rooms, steps) && View() == rooms[0]
      modifies this
      ensures View() == rooms[|steps|] && RoomSafety.Inv(View())
    {
      RoomSafety.RunInv(rooms, steps, 0);
      for i := 0 to |steps|
        invariant View() == rooms[i] && RoomSafety.Inv(View())
      {
        assert RoomSafety.Next(rooms[i], steps[i], rooms[i + 1]);
        var _ := Perform(steps[i]);
        RoomSafety.RunInv(rooms, steps, i + 1);
      }
    }
  }
}
