/**
 When disbanding a room makes a leave ask for disbanding again. Making the members leave one after
 the other also checks after each leave whether the round is over; the answer is thrown away, on the
 grounds that the room is choosing a chart by then.
 */
module Disbanding {
  import opened Basics
  import opened Rooms
  import HostRotation
  import RoomSafety
  import opened Hub
  import HubSafety

  /** Whether some leave asks for disbanding when the members leave in the given order. */
  function Asks(r: Room, order: seq<int>): bool
    decreases |order|
  {
    order != [] &&
    var (r', _, disband) := Leave(r, order[0], RoomSafety.Role(r, order[0]));
    disband || Asks(r', order[1..])
  }

  /** Whether the eviction loop makes u leave. */
  predicate Goes(h: State, ref: nat, u: int)
    requires ref in h.heap
  {
    u in h.users && h.users[u].room.Some? && h.users[u].room.value in h.heap && h.heap[h.users[u].room.value].id == h.heap[ref].id
  }

  /** One turn of the loop. */
  function Turn(h: State, ref: nat, u: int): (h': State)
    requires ref in h.heap
    ensures ref in h'.heap
  {
    if !Goes(h, ref, u) then h
    else h.(heap := h.heap[ref := Leave(h.heap[ref], u, h.users[u].monitor).0], users := h.users[u := h.users[u].(room := None)])
  }

  predicate TurnAsks(h: State, ref: nat, u: int)
    requires ref in h.heap
  {
    Goes(h, ref, u) && Leave(h.heap[ref], u, h.users[u].monitor).2
  }

  /** Whether some leave asks for disbanding when the eviction loop runs. */
  function EvictionAsks(h: State, ref: nat, order: seq<int>): bool
    requires ref in h.heap
    decreases |order|
  {
    order != [] && (TurnAsks(h, ref, order[0]) || EvictionAsks(Turn(h, ref, order[0]), ref, order[1..]))
  }

  lemma EvictTurn(h: State, ref: nat, order: seq<int>)
    requires ref in h.heap && order != []
    ensures Evict(h, ref, order) == Evict(Turn(h, ref, order[0]), ref, order[1..])
  {
  }

  /** Whether the loop, having gone through the k first, asks at the next turn. */
  ghost predicate AsksAt(h: State, ref: nat, order: seq<int>, k: nat)
    requires ref in h.heap && k < |order|
  {
    var h' := Evict(h, ref, order[..k]);
    ref in h'.heap && TurnAsks(h', ref, order[k])
  }

  lemma AsksFirst(h: State, ref: nat, order: seq<int>)
    requires ref in h.heap && order != []
    ensures AsksAt(h, ref, order, 0) <==> TurnAsks(h, ref, order[0])
  {
    assert order[..0] == [];
  }

  lemma AsksLater(h: State, ref: nat, order: seq<int>, k: nat)
    requires ref in h.heap && 0 < k < |order|
    ensures AsksAt(h, ref, order, k) <==> AsksAt(Turn(h, ref, order[0]), ref, order[1..], k - 1)
  {
    EvictTurn(h, ref, order[..k]);
    assert order[..k][1..] == order[1..][..k - 1] && order[1..][k - 1] == order[k];
  }

  /** The eviction loop asks exactly when it does so at one of its turns. */
  lemma {:induction false} EvictionAsksAt(h: State, ref: nat, order: seq<int>)
    requires ref in h.heap
    ensures EvictionAsks(h, ref, order) <==> exists k :: 0 <= k < |order| && AsksAt(h, ref, order, k)
    decreases |order|
  {
    if order != [] {
      AsksFirst(h, ref, order);
      var h1 := Turn(h, ref, order[0]);
      EvictionAsksAt(h1, ref, order[1..]);
      if EvictionAsks(h1, ref, order[1..]) {
        var k :| 0 <= k < |order[1..]| && AsksAt(h1, ref, order[1..], k);
        AsksLater(h, ref, order, k + 1);
      }
      if k :| 0 < k < |order| && AsksAt(h, ref, order, k) {
        AsksLater(h, ref, order, k);
      }
    }
  }

  /** The contest rooms that exist are started by hand and disbanded at the end. */
  predicate ByHand(r: Room) {
    r.contest.Some? ==> r.contest.value.manualStart && r.contest.value.autoDisband
  }

  /** A running contest, whose end disbands the room. */
  predicate ContestRuns(r: Room) {
    r.phase.Playing? && r.contest.Some? && r.contest.value.autoDisband
  }

  /** `order` names every member once. */
  ghost predicate Lists(r: Room, order: seq<int>) {
    && RoomSafety.Distinct(order) && RoomSafety.Distinct(r.users) && RoomSafety.Distinct(r.monitors)
    && (forall u :: u in order <==> u in r.users || u in r.monitors)
    && (forall u :: u in r.users ==> u !in r.monitors)
  }

  // ---- One leave ----

  lemma FirstListed(r: Room, order: seq<int>)
    requires Lists(r, order) && order != []
    ensures order[0] in r.users || order[0] in r.monitors
    ensures forall u :: u in order[1..] <==> u in order && u != order[0]
    ensures RoomSafety.Distinct(order[1..])
  {
    assert order[0] in order;
    assert order == [order[0]] + order[1..];
  }

  /** The leave of the first member leaves a room that the rest of the order lists. */
  lemma RestListed(r: Room, order: seq<int>)
    requires Lists(r, order) && order != []
    ensures var u := order[0];
            var r' := Leave(r, u, RoomSafety.Role(r, u)).0;
            && Lists(r', order[1..]) && r'.contest == r.contest && r'.id == r.id
            && (forall x :: x in r'.users <==> x in r.users && x != u)
            && (u !in r.users ==> r'.users == r.users)
  {
    var u := order[0];
    var monitor := RoomSafety.Role(r, u);
    FirstListed(r, order);
    RoomSafety.WithoutIs(r.users, u);
    RoomSafety.WithoutIs(r.monitors, u);
    HubSafety.LeaveMembers(r, u, monitor);
    LeaveContest(r, u, monitor);
  }

  lemma CheckContest(r: Room)
    ensures CheckAllReady(r).0.contest == r.contest
  {
  }

  lemma LeaveContest(r: Room, user: int, monitor: bool)
    ensures Leave(r, user, monitor).0.contest == r.contest
  {
    var r1 := RemoveMember(r, user, monitor);
    CheckContest(r1);
    match HostRotation.Pick(r1.users, user)
    case Some(next) => CheckContest(r1.(host := next));
    case None =>
  }

  /** A leave asks exactly when it ends the round of a contest: the host is not the last player, and everybody left is settled. */
  lemma LeaveAsks(r: Room, user: int, monitor: bool)
    ensures var r1 := RemoveMember(r, user, monitor);
            Leave(r, user, monitor).2 <==> ContestRuns(r) && (r.host != user || r1.users != []) && AllSettled(r1)
  {
    HostRotation.PickIsSuccessor(RemoveMember(r, user, monitor).users, user, user);
  }

  /** Otherwise the phase of a running contest is untouched, and the host stays unless it was the host who left. */
  lemma LeaveGoesOn(r: Room, user: int, monitor: bool)
    requires ContestRuns(r) && !Leave(r, user, monitor).2
    ensures var r' := Leave(r, user, monitor).0;
            && r'.phase == r.phase && ContestRuns(r')
            && (if r.host == user && r'.users != [] then r'.host in r'.users else r'.host == r.host)
  {
    var r1 := RemoveMember(r, user, monitor);
    LeaveAsks(r, user, monitor);
    if r1.users != [] {
      RoomSafety.PickedIsMember(r1, user);
    }
  }

  // ---- Where no leave asks ----

  /** A room in which no contest is running stays one while its members leave. */
  lemma LeaveStaysOut(r: Room, user: int, monitor: bool)
    requires !ContestRuns(r) && ByHand(r)
    ensures var (r', _, disband) := Leave(r, user, monitor);
            !disband && !ContestRuns(r') && ByHand(r')
  {
    LeaveAsks(r, user, monitor);
    LeaveContest(r, user, monitor);
    HostRotation.PickIsSuccessor(RemoveMember(r, user, monitor).users, user, user);
  }

  lemma {:induction false} NeverAsks(r: Room, order: seq<int>)
    requires !ContestRuns(r) && ByHand(r)
    ensures !Asks(r, order)
    decreases |order|
  {
    if order != [] {
      LeaveStaysOut(r, order[0], RoomSafety.Role(r, order[0]));
      NeverAsks(Leave(r, order[0], RoomSafety.Role(r, order[0])).0, order[1..]);
    }
  }

  // ---- In a running contest ----

  /** Somebody who is here has not settled. */
  ghost predicate Waits(r: Room) {
    r.phase.Playing? && exists i :: 0 <= i < |r.users| && !Settled(r.phase, r.users[i])
  }

  /** The last to leave is a player the round still waits for. */
  predicate EndsWithUnsettled(r: Room, order: seq<int>) {
    order != [] && order[|order| - 1] in r.users && !Settled(r.phase, order[|order| - 1])
  }

  /** Once the players are gone, the first monitor's leave asks. */
  lemma MonitorsAsk(r: Room, order: seq<int>)
    requires ContestRuns(r) && Lists(r, order) && r.users == [] && r.host !in r.monitors
    ensures Asks(r, order) <==> order != []
  {
    if order != [] {
      FirstListed(r, order);
      LeaveAsks(r, order[0], true);
      assert Without([], order[0]) == [];
    }
  }

  lemma LastOf(order: seq<int>)
    requires |order| >= 2
    ensures order[1..][|order[1..]| - 1] == order[|order| - 1]
  {
  }

  /** The last of several is not the first. */
  lemma LastIsOther(order: seq<int>)
    requires |order| >= 2 && RoomSafety.Distinct(order)
    ensures order[|order| - 1] != order[0]
  {
  }

  /** A monitor leaves: the round goes on waiting. */
  lemma MonitorFirst(r: Room, order: seq<int>)
    requires ContestRuns(r) && Lists(r, order) && order != [] && order[0] !in r.users && Waits(r) && r.host in r.users
    ensures var (r', _, disband) := Leave(r, order[0], true);
            !disband && ContestRuns(r') && Waits(r') && r'.users == r.users && r'.phase == r.phase && r'.host in r'.users
  {
    LeaveAsks(r, order[0], true);
    RestListed(r, order);
    LeaveGoesOn(r, order[0], true);
  }

  /** The only player leaves: the room is dropped without a check, and the monitors follow. */
  lemma OnlyPlayerFirst(r: Room, order: seq<int>)
    requires ContestRuns(r) && Lists(r, order) && order != [] && order[0] in r.users && r.host in r.users
    requires forall x :: x in r.users ==> x == order[0]
    ensures var (r', _, disband) := Leave(r, order[0], false);
            !disband && ContestRuns(r') && r'.users == [] && r'.host !in r'.monitors && Lists(r', order[1..])
  {
    RestListed(r, order);
    HubSafety.LeaveMembers(r, order[0], false);
    HubSafety.HeadIsMember(RemoveMember(r, order[0], false).users);
    LeaveAsks(r, order[0], false);
    LeaveGoesOn(r, order[0], false);
  }

  /** A player leaves others behind: the leave asks when they are all settled, else the round goes on waiting for one of them. */
  lemma PlayerFirst(r: Room, order: seq<int>, other: int)
    requires ContestRuns(r) && Lists(r, order) && order != [] && order[0] in r.users && r.host in r.users
    requires other in r.users && other != order[0]
    ensures var (r', _, disband) := Leave(r, order[0], false);
            if disband then forall x :: x in r.users && x != order[0] ==> Settled(r.phase, x)
            else ContestRuns(r') && Waits(r') && r'.phase == r.phase && r'.host in r'.users
  {
    var u := order[0];
    RestListed(r, order);
    HubSafety.LeaveMembers(r, u, false);
    LeaveAsks(r, u, false);
    var r1 := RemoveMember(r, u, false);
    assert other in r1.users;
    if !Leave(r, u, false).2 {
      LeaveGoesOn(r, u, false);
    }
  }

  /** While a contest runs and waits for somebody, some leave asks exactly unless the last to leave is a player it waits for. */
  lemma {:induction false} ContestAsks(r: Room, order: seq<int>)
    requires ContestRuns(r) && Lists(r, order) && Waits(r) && r.host in r.users
    ensures Asks(r, order) <==> !EndsWithUnsettled(r, order)
    decreases |order|
  {
    assert order != [] by { assert r.host in order; }
    var u := order[0];
    FirstListed(r, order);
    RestListed(r, order);
    var r' := Leave(r, u, RoomSafety.Role(r, u)).0;
    if u !in r.users {
      MonitorFirst(r, order);
      assert |order| >= 2 by { assert r.host in order[1..]; }
      LastOf(order);
      ContestAsks(r', order[1..]);
    } else if forall x :: x in r.users ==> x == u {
      OnlyPlayerFirst(r, order);
      MonitorsAsk(r', order[1..]);
      LastAfterOnly(r, order);
    } else {
      var other :| other in r.users && other != u;
      PlayerFirst(r, order, other);
      assert |order| >= 2 by { assert other in order[1..]; }
      LastIsOther(order);
      LastOf(order);
      if !Leave(r, u, false).2 {
        ContestAsks(r', order[1..]);
      }
    }
  }

  lemma LastAfterOnly(r: Room, order: seq<int>)
    requires Lists(r, order) && Waits(r) && order != [] && forall x :: x in r.users ==> x == order[0]
    ensures EndsWithUnsettled(r, order) <==> order[1..] == []
  {
    var i :| 0 <= i < |r.users| && !Settled(r.phase, r.users[i]);
    assert r.users[i] in r.users;
    if |order| >= 2 {
      LastIsOther(order);
    }
  }

  // ---- Main results ----

  /**
   Disbanding a room in order makes some leave ask for disbanding if and only if a contest is running
   and the last to leave is not a player the round still waits for.
   */
  lemma AsksExactly(r: Room, order: seq<int>)
    requires RoomSafety.Inv(r) && ByHand(r) && Lists(r, order)
    ensures Asks(r.(readyArmed := false, deadlineArmed := false), order) <==> ContestRuns(r) && !EndsWithUnsettled(r, order)
  {
    var r0 := r.(readyArmed := false, deadlineArmed := false);
    if ContestRuns(r) {
      assert Waits(r0) by {
        var i :| 0 <= i < |r.users| && !Settled(r.phase, r.users[i]);
        assert !Settled(r0.phase, r0.users[i]);
      }
      ContestAsks(r0, order);
    } else {
      NeverAsks(r0, order);
    }
  }

  /** The members still to be evicted point at the room in their role. */
  ghost predicate Inside(h: State, ref: nat, order: seq<int>)
    requires ref in h.heap
  {
    forall u :: u in order ==> u in h.users && h.users[u] == User(Some(ref), RoomSafety.Role(h.heap[ref], u))
  }

  lemma {:induction false} EvictionIs(h: State, ref: nat, order: seq<int>)
    requires ref in h.heap && Lists(h.heap[ref], order) && Inside(h, ref, order)
    ensures EvictionAsks(h, ref, order) == Asks(h.heap[ref], order)
    decreases |order|
  {
    if order != [] {
      var r, u := h.heap[ref], order[0];
      FirstListed(r, order);
      RestListed(r, order);
      var r' := Leave(r, u, RoomSafety.Role(r, u)).0;
      var h' := h.(heap := h.heap[ref := r'], users := h.users[u := h.users[u].(room := None)]);
      assert u in order;
      StillInside(h, ref, order, r', h');
      EvictionIs(h', ref, order[1..]);
    }
  }

  lemma StillInside(h: State, ref: nat, order: seq<int>, r': Room, h': State)
    requires ref in h.heap && order != [] && Inside(h, ref, order) && order[0] in h.users
    requires forall x :: x in order[1..] <==> x in order && x != order[0]
    requires forall x :: x in r'.users <==> x in h.heap[ref].users && x != order[0]
    requires h' == h.(heap := h.heap[ref := r'], users := h.users[order[0] := h.users[order[0]].(room := None)])
    ensures Inside(h', ref, order[1..])
  {
  }

  /** The same for the eviction loop over the server's state, when room table and users agree. */
  lemma DisbandAsksExactly(h: State, ref: nat, order: seq<int>)
    requires HubSafety.Inv(h) && Listed(h, ref) && ByHand(h.heap[ref]) && Participants(h, ref, order) && RoomSafety.Distinct(order)
    ensures var r := h.heap[ref];
            EvictionAsks(h.(heap := h.heap[ref := r.(readyArmed := false, deadlineArmed := false)]), ref, order)
            <==> ContestRuns(r) && !EndsWithUnsettled(r, order)
  {
    var r := h.heap[ref];
    var r0 := r.(readyArmed := false, deadlineArmed := false);
    ParticipantsListed(h, ref, order);
    assert HubSafety.MembersOk(h, ref);
    AsksExactly(r, order);
    EvictionIs(h.(heap := h.heap[ref := r0]), ref, order);
  }

  lemma ParticipantsListed(h: State, ref: nat, order: seq<int>)
    requires ref in h.heap && RoomSafety.MembersOk(h.heap[ref]) && Participants(h, ref, order) && RoomSafety.Distinct(order)
    ensures Lists(h.heap[ref], order)
  {
    forall u
      ensures u in order <==> u in h.heap[ref].users || u in h.heap[ref].monitors
    {
      RoomSafety.SnapshotExact(h.heap[ref], u);
    }
  }

  // ---- Contests are started by hand in every run ----

  ghost predicate AllByHand(h: State) {
    forall ref :: ref in h.heap ==> ByHand(h.heap[ref])
  }

  lemma QuietByHand(r: Room, step: RoomSafety.Step)
    requires ByHand(r)
    requires RoomSafety.IsAdministrative(step) || step.DoJoin? || step.DoChooseChart? || step.DoCancelReady? || step.ReadyFires?
    ensures ByHand(RoomSafety.After(r, step).0)
  {
  }

  lemma ReadyByHand(r: Room, user: int)
    ensures RequestStart(r, user).0.contest == r.contest && Ready(r, user).0.contest == r.contest
  {
    CheckContest(r.(phase := WaitForReady({user})));
    if r.phase.WaitForReady? { CheckContest(r.(phase := WaitForReady(r.phase.started + {user}))); }
  }

  lemma PlayedByHand(r: Room, user: int, record: Option<Record>)
    ensures Played(r, user, record).0.contest == r.contest
  {
    if r.phase.Playing? && record.Some? { CheckContest(r.(phase := Playing(r.phase.results[user := record.value], r.phase.aborted))); }
  }

  lemma AbortByHand(r: Room, more: set<int>)
    ensures r.phase.Playing? ==> CheckAllReady(r.(phase := Playing(r.phase.results, r.phase.aborted + more))).0.contest == r.contest
  {
    if r.phase.Playing? { CheckContest(r.(phase := Playing(r.phase.results, r.phase.aborted + more))); }
  }

  lemma StepByHand(r: Room, step: RoomSafety.Step)
    requires ByHand(r)
    ensures ByHand(RoomSafety.After(r, step).0)
  {
    match step
    case DoLeave(user) => LeaveContest(r, user, RoomSafety.Role(r, user));
    case DoRequestStart(user) => ReadyByHand(r, user);
    case DoReady(user) => ReadyByHand(r, user);
    case DoPlayed(user, record) => PlayedByHand(r, user, record);
    case DoAbort(user) => AbortByHand(r, {user});
    case DeadlineFires => AbortByHand(r, set u | u in r.users && !Settled(r.phase, u));
    case _ => QuietByHand(r, step);
  }

  lemma {:induction false} EvictByHand(h: State, ref: nat, order: seq<int>)
    requires ref in h.heap && AllByHand(h)
    ensures AllByHand(Evict(h, ref, order))
    decreases |order|
  {
    if order != [] {
      EvictTurn(h, ref, order);
      if Goes(h, ref, order[0]) {
        LeaveContest(h.heap[ref], order[0], h.users[order[0]].monitor);
      }
      EvictByHand(Turn(h, ref, order[0]), ref, order[1..]);
    }
  }

  lemma DisbandByHand(h: State, ref: nat, order: seq<int>)
    requires ref in h.heap && AllByHand(h)
    ensures AllByHand(DisbandRoom(h, ref, order))
  {
    EvictByHand(h.(heap := h.heap[ref := h.heap[ref].(readyArmed := false, deadlineArmed := false)]), ref, order);
  }

  lemma ExitByHand(h: State, user: int, ref: nat, order: seq<int>)
    requires user in h.users && ref in h.heap && AllByHand(h)
    ensures AllByHand(Exit(h, user, ref, order))
  {
    var (r, drop, disband) := Leave(h.heap[ref], user, h.users[user].monitor);
    LeaveContest(h.heap[ref], user, h.users[user].monitor);
    var h1 := h.(heap := h.heap[ref := r], users := h.users[user := h.users[user].(room := None)]);
    DisbandByHand(if drop then h1.(rooms := h1.rooms - {r.id}) else h1, ref, order);
  }

  lemma SettleByHand(h: State, ref: nat, step: RoomSafety.Step, order: seq<int>)
    requires ref in h.heap && AllByHand(h)
    ensures var (r, v) := RoomSafety.After(h.heap[ref], step);
            AllByHand(h.(heap := h.heap[ref := r])) && AllByHand(Settle(h, ref, r, v, order))
  {
    var r := RoomSafety.After(h.heap[ref], step).0;
    StepByHand(h.heap[ref], step);
    DisbandByHand(h.(heap := h.heap[ref := r]), ref, order);
  }

  lemma ActionByHand(h: State, act: Action)
    requires AllByHand(h) && Enabled(h, act)
    ensures AllByHand(Do(h, act))
  {
    match act
    case LeaveRoom(user, remove, order) => if h.users[user].room.Some? { ExitByHand(h, user, h.users[user].room.value, order); }
    case Command(user, step, order) => SettleByHand(h, h.users[user].room.value, step, order);
    case Timer(ref, step, order) => SettleByHand(h, ref, step, order);
    case Administer(ref, step) => StepByHand(h.heap[ref], step);
    case DisbandListed(ref, order) => DisbandByHand(h, ref, order);
    case DisbandPending(ref, order) => DisbandByHand(h.(pending := h.pending - {ref}), ref, order);
    case _ =>
  }

  lemma {:induction false} RunByHand(states: seq<State>, acts: seq<Action>, i: nat)
    requires HubSafety.Run(states, acts) && states[0] == HubSafety.EMPTY && i < |states|
    ensures AllByHand(states[i])
    decreases i
  {
    if i > 0 {
      RunByHand(states, acts, i - 1);
      assert HubSafety.Next(states[i - 1], acts[i - 1], states[i]);
      ActionByHand(states[i - 1], acts[i - 1]);
    }
  }

  /** In every careful run from the empty server, whatever room is disbanded and in whatever order its members leave. */
  lemma RunDisbandAsks(states: seq<State>, acts: seq<Action>, i: nat, ref: nat, order: seq<int>)
    requires HubSafety.Run(states, acts) && states[0] == HubSafety.EMPTY && i < |states|
    requires forall k :: 0 <= k < |acts| ==> HubSafety.Careful(states[k], acts[k])
    requires Listed(states[i], ref) && Participants(states[i], ref, order) && RoomSafety.Distinct(order)
    ensures var h := states[i];
            var r := h.heap[ref];
            EvictionAsks(h.(heap := h.heap[ref := r.(readyArmed := false, deadlineArmed := false)]), ref, order)
            <==> ContestRuns(r) && !EndsWithUnsettled(r, order)
  {
    HubSafety.RunKeeps(states, acts, i);
    RunByHand(states, acts, i);
    DisbandAsksExactly(states[i], ref, order);
  }
}
