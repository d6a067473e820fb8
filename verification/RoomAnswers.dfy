/** What a room answers to every command and timer, and what each leaves of it. */
module RoomAnswers {
  import opened Basics
  import opened Rooms
  import opened RoomSafety
  import HostRotation

  // ---- Starting and ending a round ----

  /** Who is here and has neither a result nor aborted. */
  function Unsettled(r: Room, results: map<int, Record>, aborted: set<int>): set<int> {
    set u | u in r.users && u !in results && u !in aborted
  }

  /** Who is here, player or monitor, and not ready. */
  function Unready(r: Room, started: set<int>): set<int> {
    set u | u in r.users + r.monitors && u !in started
  }

  /** Everybody ready is not enough: an administrator has to start. */
  predicate ByHand(r: Room) {
    r.contest.Some? && r.contest.value.manualStart
  }

  predicate DisbandsAtEnd(r: Room) {
    r.contest.Some? && r.contest.value.autoDisband
  }

  /** The round starts, with nobody settled but those who sit out, and no timer running. */
  ghost predicate Starts(r: Room, r': Room, out: set<int>) {
    r' == r.(phase := Playing(map[], out), readyArmed := false, deadlineArmed := false, starts := r.starts + 1, armings := 0)
  }

  /** The host a cycle room gets: the designated player if that is another one who is here, else the next in order. */
  ghost predicate HandsOver(r: Room, next: int) {
    if r.nextHost.Some? && r.nextHost.value in r.users && r.nextHost.value != r.host then next == r.nextHost.value
    else HostRotation.Successor(r.users, r.host, next)
  }

  /**
   The round ends: the room chooses a chart again, the deadline is off, a contest that is to be disbanded
   says so, and any other cycle room of more than one player hands over the host and uses up the designation.
   */
  ghost predicate Ends(r: Room, r': Room, v: Verdict) {
    && r' == r.(phase := SelectChart, deadlineArmed := false, ends := r.ends + 1, host := r'.host, nextHost := r'.nextHost)
    && v == (if DisbandsAtEnd(r) then Disband else Done)
    && (if !DisbandsAtEnd(r) && r.cycle && |r.users| > 1 then r'.nextHost == None && HandsOver(r, r'.host)
        else r'.host == r.host && r'.nextHost == r.nextHost)
  }

  lemma EndAnswered(r: Room)
    ensures Ends(r, EndRound(r).0, Judge(EndRound(r).1))
  {
    if !DisbandsAtEnd(r) && r.cycle && |r.users| > 1 {
      var next := HostRotation.Pick(r.users, r.host);
      HostRotation.PickIsSuccessor(r.users, r.host, if next.Some? then next.value else 0);
    }
  }

  /** What follows once it has been recorded who has settled: the round ends exactly if nobody here is left. */
  lemma PlayChecked(r: Room, results: map<int, Record>, aborted: set<int>)
    ensures var r1 := r.(phase := Playing(results, aborted));
            var (r', disband) := CheckAllReady(r1);
            && (Unsettled(r, results, aborted) != {} ==> r' == r1 && !disband)
            && (Unsettled(r, results, aborted) == {} ==> Ends(r, r', Judge(disband)))
  {
    var r1 := r.(phase := Playing(results, aborted));
    EndAnswered(r1);
    if AllSettled(r1) {
      forall u | u in r.users ensures u !in Unsettled(r, results, aborted) {
        var i :| 0 <= i < |r.users| && r.users[i] == u;
        assert Settled(r1.phase, r1.users[i]);
      }
      assert Unsettled(r, results, aborted) == {};
    } else {
      var i :| 0 <= i < |r.users| && !Settled(r1.phase, r1.users[i]);
      assert r.users[i] in Unsettled(r, results, aborted);
    }
  }

  lemma AllReadyIs(r: Room, started: set<int>)
    ensures AllStarted(r.(phase := WaitForReady(started))) <==> Unready(r, started) == {}
  {
    var r1 := r.(phase := WaitForReady(started));
    var all := r.users + r.monitors;
    if AllStarted(r1) {
      forall u | u in all ensures u !in Unready(r, started) {
        var i :| 0 <= i < |all| && all[i] == u;
        assert (r1.users + r1.monitors)[i] in started;
      }
      assert Unready(r, started) == {};
    } else {
      var i :| 0 <= i < |all| && (r1.users + r1.monitors)[i] !in started;
      assert all[i] in Unready(r, started);
    }
  }

  /** What follows once it has been recorded who is ready: play starts exactly if everybody is and no administrator has to. */
  lemma ReadyChecked(r: Room, started: set<int>)
    ensures var r1 := r.(phase := WaitForReady(started));
            var (r', disband) := CheckAllReady(r1);
            && !disband
            && (Unready(r, started) != {} || ByHand(r) ==> r' == r1)
            && (Unready(r, started) == {} && !ByHand(r) ==> Starts(r, r', {}))
  {
    AllReadyIs(r, started);
  }

  // ---- Results ----

  lemma FirstResult(results: map<int, Record>, user: int, record: Record)
    requires user !in results
    ensures |results[user := record]| == 1 <==> results == map[]
  {
    assert results == map[] <==> |results| == 0;
  }

  lemma Submitted(r: Room, results: map<int, Record>, aborted: set<int>, user: int, record: Record)
    ensures var (r', v) := Submit(r, results, aborted, user, record);
            var after := results[user := record];
            var arms := |after| == 1 && r.contest.None?;
            && (r'.phase.Playing? <==> Unsettled(r, results, aborted) - {user} != {})
            && (r'.phase.Playing? ==>
                  && v == Done
                  && r' == r.(phase := Playing(after, aborted), deadlineArmed := arms || r.deadlineArmed,
                              armings := r.armings + if arms then 1 else 0))
            && (!r'.phase.Playing? ==> Ends(r, r', v))
  {
    hide CheckAllReady, HandsOver;
    PlayChecked(r, results[user := record], aborted);
    assert Unsettled(r, results[user := record], aborted) == Unsettled(r, results, aborted) - {user};
  }

  /**
   A player who has not settled hands in a result of their own for the room's chart: it is stored. If somebody
   else here has not settled the round goes on, and the first result of a normal room arms the deadline;
   otherwise the round ends.
   */
  lemma PlayedExactly(r: Room, user: int, record: Record)
    requires r.phase.Playing? && user !in r.phase.results && user !in r.phase.aborted
    requires record.player == user && (r.chart.Some? && record.chart.Some? ==> record.chart == r.chart)
    ensures var (r', v) := After(r, DoPlayed(user, Some(record)));
            var results := r.phase.results[user := record];
            var first := r.phase.results == map[] && r.contest.None?;
            && (r'.phase.Playing? <==> Unsettled(r, r.phase.results, r.phase.aborted) - {user} != {})
            && (r'.phase.Playing? ==>
                  && v == Done
                  && r' == r.(phase := Playing(results, r.phase.aborted), deadlineArmed := first || r.deadlineArmed,
                              armings := r.armings + if first then 1 else 0))
            && (!r'.phase.Playing? ==> Ends(r, r', v))
  {
    Submitted(r, r.phase.results, r.phase.aborted, user, record);
    FirstResult(r.phase.results, user, record);
  }

  /** A player who has settled is answered without effect; so is a record that is missing, another player's, or of another chart. */
  lemma PlayedIgnored(r: Room, user: int, fetched: Option<Record>)
    ensures r.phase.Playing? && (user in r.phase.results || user in r.phase.aborted) ==> After(r, DoPlayed(user, fetched)) == (r, Done)
    ensures !(r.phase.Playing? && (user in r.phase.results || user in r.phase.aborted))
            && (fetched.None? || fetched.value.player != user
                || (r.chart.Some? && fetched.value.chart.Some? && fetched.value.chart != r.chart)) ==>
              After(r, DoPlayed(user, fetched)) == (r, Refused)
    ensures !r.phase.Playing? && fetched.Some? && fetched.value.player == user
            && (r.chart.Some? && fetched.value.chart.Some? ==> fetched.value.chart == r.chart) ==>
              After(r, DoPlayed(user, fetched)) == (r, Done)
  {
  }

  /** Giving up settles a player who has not settled; anybody else is refused, and outside a round it means nothing. */
  lemma AbortAnswered(r: Room, user: int)
    ensures var (r', v) := After(r, DoAbort(user));
            match r.phase
            case Playing(results, aborted) =>
              if user in results || user in aborted then r' == r && v == Refused
              else if Unsettled(r, results, aborted) - {user} != {} then r' == r.(phase := Playing(results, aborted + {user})) && v == Done
              else Ends(r, r', v)
            case _ => r' == r && v == Done
  {
    if r.phase.Playing? {
      PlayChecked(r, r.phase.results, r.phase.aborted + {user});
      assert Unsettled(r, r.phase.results, r.phase.aborted + {user}) == Unsettled(r, r.phase.results, r.phase.aborted) - {user};
    }
  }

  /** The deadline ends the round it fires in. */
  lemma DeadlineAnswered(r: Room)
    requires r.phase.Playing?
    ensures Ends(r, After(r, DeadlineFires).0, After(r, DeadlineFires).1)
  {
    var late := set u | u in r.users && !Settled(r.phase, u);
    PlayChecked(r, r.phase.results, r.phase.aborted + late);
    assert Unsettled(r, r.phase.results, r.phase.aborted + late) == {};
  }

  // ---- Getting ready ----

  /** The host of a room with a chart asks for readiness; alone, and with no administrator to wait for, the host plays at once. */
  lemma RequestStartAnswered(r: Room, user: int)
    ensures var (r', v) := After(r, DoRequestStart(user));
            if r.host != user || r.chart.None? || !r.phase.SelectChart? then r' == r && v == Refused
            else
              && v == Done
              && (if ByHand(r) then r' == r.(phase := WaitForReady({user}))
                  else if Unready(r, {user}) == {} then Starts(r, r', {})
                  else r' == r.(phase := WaitForReady({user}), readyArmed := true))
  {
    ReadyChecked(r, {user});
  }

  /** Being ready counts once; the last one to be ready starts the round, unless an administrator has to. */
  lemma ReadyAnswered(r: Room, user: int)
    ensures var (r', v) := After(r, DoReady(user));
            match r.phase
            case Playing(_, _) => r' == r && v == Refused
            case SelectChart => r' == r && v == Done
            case WaitForReady(started) =>
              if user in started then r' == r && v == Refused
              else
                && v == Done
                && (if Unready(r, started) - {user} == {} && !ByHand(r) then Starts(r, r', {})
                    else r' == r.(phase := WaitForReady(started + {user})))
  {
    if r.phase.WaitForReady? {
      ReadyChecked(r, r.phase.started + {user});
      assert Unready(r, r.phase.started + {user}) == Unready(r, r.phase.started) - {user};
    }
  }

  /** Withdrawn readiness is gone; the host's withdrawal sends the room back to choosing and stops the countdown. */
  lemma CancelReadyAnswered(r: Room, user: int)
    ensures var (r', v) := After(r, DoCancelReady(user));
            match r.phase
            case Playing(_, _) => r' == r && v == Refused
            case SelectChart => r' == r && v == Done
            case WaitForReady(started) =>
              if user !in started then r' == r && v == Refused
              else if r.host == user then r' == r.(phase := SelectChart, readyArmed := false) && v == Done
              else
                && v == Done && r'.phase.WaitForReady? && r' == r.(phase := r'.phase)
                && forall u :: u in r'.phase.started <==> u in started && u != user
  {
  }

  /** Whoever took it back can be ready again, and the room is as if they had not. */
  lemma CancelUndoesReady(r: Room, user: int)
    requires r.phase.WaitForReady? && user !in r.phase.started && user != r.host
    requires Unready(r, r.phase.started) - {user} != {} || ByHand(r)
    ensures After(After(r, DoReady(user)).0, DoCancelReady(user)) == (r, Done)
  {
    ReadyAnswered(r, user);
    assert r.phase.started + {user} - {user} == r.phase.started;
  }

  /** The countdown starts the round without those who are not ready: they sit it out. */
  lemma ReadyFiresAnswered(r: Room)
    requires r.phase.WaitForReady?
    ensures var (r', v) := After(r, ReadyFires);
            v == Done && exists out :: Starts(r, r', out) && forall u :: u in out <==> u in r.users && u !in r.phase.started
  {
    var out := set u | u in r.users && u !in r.phase.started;
    assert Starts(r, After(r, ReadyFires).0, out);
  }

  // ---- Members ----

  /** A newcomer is admitted to an open room whose contest lists them and which has a place, a monitor one with the permission to watch. */
  predicate Admits(r: Room, user: int, monitor: bool, canMonitor: bool) {
    && (r.contest.Some? ==> user in r.contest.value.whitelist)
    && !r.locked
    && if monitor then canMonitor else |r.users| < r.max
  }

  /** A newcomer comes last, and in a running round counts as aborted unless they only watch; otherwise nothing changes. */
  lemma JoinAnswered(r: Room, user: int, monitor: bool, canMonitor: bool)
    requires MembersOk(r) && user !in r.users && user !in r.monitors
    ensures var (r', v) := After(r, DoJoin(user, monitor, canMonitor));
            if !Admits(r, user, monitor, canMonitor) then r' == r && v == Refused
            else
              && v == Done
              && r'.users == (if monitor then r.users else r.users + [user])
              && r'.monitors == (if monitor then r.monitors + [user] else r.monitors)
              && r'.phase == (if !monitor && r.phase.Playing? then Playing(r.phase.results, r.phase.aborted + {user}) else r.phase)
              && r' == r.(users := r'.users, monitors := r'.monitors, phase := r'.phase, usersMap := r'.usersMap,
                          monitorUsers := r'.monitorUsers, snapshot := r'.snapshot)
  {
  }

  /** The room without a member, and with the next host if that was the host. */
  ghost predicate Leaves(r: Room, user: int, r1: Room) {
    && (forall u :: u in r1.users <==> u in r.users && u != user)
    && (forall u :: u in r1.monitors <==> u in r.monitors && u != user)
    && r1 == r.(users := r1.users, monitors := r1.monitors, usersMap := r1.usersMap, monitorUsers := r1.monitorUsers,
                snapshot := r1.snapshot, host := r1.host)
    && (if user == r.host then HostRotation.Successor(r1.users, user, r1.host) else r1.host == r.host)
  }

  function Remaining(r: Room, user: int): Room {
    var left := RemoveMember(r, user, Role(r, user));
    match HostRotation.Pick(left.users, user)
    case Some(next) => if user == r.host then left.(host := next) else left
    case None => left
  }

  lemma MemberRemoved(r: Room, user: int)
    requires MembersOk(r) && (user in r.users || user in r.monitors)
    ensures var left := RemoveMember(r, user, Role(r, user));
            && (forall u :: u in left.users <==> u in r.users && u != user)
            && (forall u :: u in left.monitors <==> u in r.monitors && u != user)
  {
    WithoutIs(r.users, user);
    WithoutIs(r.monitors, user);
  }

  lemma HostReplaced(r: Room, user: int)
    requires r.host == user && !Drops(r, DoLeave(user))
    ensures HostRotation.Successor(Remaining(r, user).users, user, Remaining(r, user).host)
  {
    hide CheckAllReady, HostRotation.Pick;
    var left := RemoveMember(r, user, Role(r, user));
    var next := HostRotation.Pick(left.users, user);
    HostRotation.PickIsSuccessor(left.users, user, if next.Some? then next.value else 0);
  }

  lemma RemainingLeaves(r: Room, user: int)
    requires MembersOk(r) && (user in r.users || user in r.monitors) && !Drops(r, DoLeave(user))
    ensures Leaves(r, user, Remaining(r, user))
  {
    hide MembersOk, Drops, HostRotation.Pick, HostRotation.Successor, Without;
    MemberRemoved(r, user);
    if user == r.host {
      HostReplaced(r, user);
    }
  }

  lemma LeaveChecks(r: Room, user: int)
    requires !Drops(r, DoLeave(user))
    ensures After(r, DoLeave(user)) == (CheckAllReady(Remaining(r, user)).0, Judge(CheckAllReady(Remaining(r, user)).1))
  {
    hide CheckAllReady, HostRotation.Pick;
  }

  /**
   A member leaves: a host who leaves players behind is followed by the next in order, and if those who stay
   are all ready, or all settled, the round starts, or ends, without the member.
   */
  lemma LeaveAnswered(r: Room, user: int) returns (r1: Room)
    requires MembersOk(r) && HostOk(r) && (user in r.users || user in r.monitors) && !Drops(r, DoLeave(user))
    ensures Leaves(r, user, r1)
    ensures var (r', v) := After(r, DoLeave(user));
            match r.phase
            case SelectChart => r' == r1 && v == Done
            case WaitForReady(started) =>
              v == Done && if Unready(r1, started) == {} && !ByHand(r) then Starts(r1, r', {}) else r' == r1
            case Playing(results, aborted) =>
              if Unsettled(r1, results, aborted) == {} then Ends(r1, r', v) else r' == r1 && v == Done
  {
    r1 := Remaining(r, user);
    RemainingLeaves(r, user);
    LeaveChecks(r, user);
    assert r1.(phase := r.phase) == r1;
    match r.phase
    case SelectChart => assert CheckAllReady(r1) == (r1, false);
    case WaitForReady(started) => ReadyChecked(r1, started);
    case Playing(results, aborted) => PlayChecked(r1, results, aborted);
  }

  // ---- The host's and the administrator's settings ----

  /** Only the host chooses, only while choosing, and only a chart that was found. */
  lemma ChooseChartAnswered(r: Room, user: int, chart: Option<int>)
    ensures var (r', v) := After(r, DoChooseChart(user, chart));
            if user == r.host && r.phase.SelectChart? && chart.Some? then r' == r.(chart := chart) && v == Done else r' == r && v == Refused
  {
  }

  /** The room goes to another player who is here, and a designation is dropped. */
  lemma TransferAnswered(r: Room, user: int)
    ensures var (r', v) := After(r, DoTransferHost(user));
            if user in r.users && user != r.host then r' == r.(host := user, nextHost := None) && v == Done else r' == r && v == Refused
  {
  }

  /** A contest waiting for readiness starts by hand when everybody is ready, or by force. */
  lemma ContestStarts(r: Room, force: bool)
    ensures var (r', v) := After(r, DoStartContest(force));
            if r.contest.Some? && r.phase.WaitForReady? && r.chart.Some? && (force || Unready(r, r.phase.started) == {})
            then Starts(r, r', {}) && v == Done
            else r' == r && v == Refused
  {
    if r.phase.WaitForReady? {
      AllReadyIs(r, r.phase.started);
      assert r.(phase := WaitForReady(r.phase.started)) == r;
    }
  }

  /** A contest starts by hand, disbands at its end, and lists those given and everybody who is here. */
  lemma ContestEnabled(r: Room, ids: seq<int>)
    ensures var (r', v) := After(r, DoEnableContest(ids));
            && v == Done && r'.contest.Some? && r' == r.(contest := r'.contest) && ByHand(r') && DisbandsAtEnd(r')
            && forall u :: u in r'.contest.value.whitelist <==> u in ids || u in r.users || u in r.monitors
  {
  }

  // ---- Every run ----

  lemma RunStep(rooms: seq<Room>, steps: seq<Step>, i: nat)
    requires Run(rooms, steps) && i < |steps|
    ensures |rooms| == |steps| + 1 && rooms[i + 1] == After(rooms[i], steps[i]).0
  {
    assert Next(rooms[i], steps[i], rooms[i + 1]);
  }

  /**
   In every run: a result that a player hands in for a round is there in every later moment of that round.
   */
  lemma ResultStored(rooms: seq<Room>, steps: seq<Step>, i: nat, j: nat)
    requires Run(rooms, steps) && i < j < |rooms| && i < |steps|
    requires rooms[i].phase.Playing? && rooms[j].phase.Playing? && rooms[j].starts == rooms[i].starts
    requires steps[i].DoPlayed? && steps[i].record.Some?
    requires steps[i].user !in rooms[i].phase.results && steps[i].user !in rooms[i].phase.aborted
    requires steps[i].record.value.player == steps[i].user
    requires rooms[i].chart.Some? && steps[i].record.value.chart.Some? ==> steps[i].record.value.chart == rooms[i].chart
    ensures steps[i].user in rooms[j].phase.results && rooms[j].phase.results[steps[i].user] == steps[i].record.value
  {
    RunStep(rooms, steps, i);
    PlayedExactly(rooms[i], steps[i].user, steps[i].record.value);
    SameRound(rooms, steps, i + 1, j);
    RoundKept(rooms, steps, i + 1, j);
  }

  /** A round that is not over at one moment was not over at an earlier one after its start. */
  lemma SameRound(rooms: seq<Room>, steps: seq<Step>, i: nat, j: nat)
    requires Run(rooms, steps) && 0 < i <= j < |rooms|
    requires rooms[i - 1].phase.Playing? && rooms[j].phase.Playing? && rooms[j].starts == rooms[i - 1].starts
    ensures rooms[i].phase.Playing? && rooms[i].starts == rooms[j].starts
  {
    RunInv(rooms, steps, i - 1);
    RunInv(rooms, steps, i);
    RunInv(rooms, steps, j);
    RunCounts(rooms, steps, i - 1, i);
    RunCounts(rooms, steps, i, j);
  }
}
