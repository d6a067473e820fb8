/**
 The room table and the users' room pointers agree over whole runs, as long as no room is
 dropped with monitors inside and no former monitor opens a room; both exceptions are shown
 to break the agreement.
 */
module HubSafety {
  import opened Basics
  import opened Rooms
  import RoomSafety
  import opened Hub

  // ---- The invariant ----

  /** Every listed room is in order and listed under its own ID. */
  ghost predicate RoomsOk(h: State) {
    forall id :: id in h.rooms ==> h.rooms[id] in h.heap && h.heap[h.rooms[id]].id == id && RoomSafety.Inv(h.heap[h.rooms[id]])
  }

  /** A user who points at a room points at a listed one and is a member of it in the user's role. */
  ghost predicate UserOk(h: State, u: int)
    requires u in h.users
  {
    match h.users[u]
    case User(room, monitor) =>
      room.Some? ==> Listed(h, room.value) && if monitor then u in h.heap[room.value].monitors else u in h.heap[room.value].users
  }

  /** The members of a room are users who point at it in that role. */
  ghost predicate MembersOk(h: State, ref: nat)
    requires ref in h.heap
  {
    && (forall u :: u in h.heap[ref].users ==> u in h.users && h.users[u] == User(Some(ref), false))
    && (forall u :: u in h.heap[ref].monitors ==> u in h.users && h.users[u] == User(Some(ref), true))
  }

  ghost predicate Inv(h: State) {
    match h
    case State(rooms, heap, users, _) =>
      && RoomsOk(h)
      && (forall u :: u in users ==> UserOk(h, u))
      && (forall id :: id in rooms && rooms[id] in heap ==> MembersOk(h, rooms[id]))
  }

  // ---- Steps inside one room ----

  /** The members of a room, as sets, are untouched. */
  ghost predicate SameMembers(r: Room, r': Room) {
    r'.id == r.id && r'.users == r.users && r'.monitors == r.monitors && r'.snapshot == r.snapshot
  }

  lemma CheckSame(r: Room)
    ensures SameMembers(r, CheckAllReady(r).0)
  {
  }

  lemma PlayedSame(r: Room, user: int, record: Option<Record>)
    ensures SameMembers(r, Played(r, user, record).0)
  {
    match r.phase
    case Playing(results, aborted) =>
      if record.Some? {
        CheckSame(r.(phase := Playing(results[user := record.value], aborted)));
      }
    case _ =>
  }

  lemma ReadySame(r: Room, user: int)
    ensures SameMembers(r, Ready(r, user).0) && SameMembers(r, RequestStart(r, user).0)
  {
    CheckSame(r.(phase := WaitForReady({user})));
    match r.phase
    case WaitForReady(started) => CheckSame(r.(phase := WaitForReady(started + {user})));
    case _ =>
  }

  lemma QuietSame(r: Room, step: RoomSafety.Step)
    requires RoomSafety.IsAdministrative(step) || step.DoChooseChart? || step.DoCancelReady? || step.ReadyFires?
    ensures SameMembers(r, RoomSafety.After(r, step).0)
  {
  }

  lemma StepSame(r: Room, step: RoomSafety.Step)
    requires !step.DoJoin? && !step.DoLeave?
    ensures SameMembers(r, RoomSafety.After(r, step).0)
  {
    match step
    case DoReady(user) => ReadySame(r, user);
    case DoRequestStart(user) => ReadySame(r, user);
    case DoPlayed(user, record) => PlayedSame(r, user, record);
    case DoAbort(user) => AbortedSame(r, {user});
    case DeadlineFires => AbortedSame(r, set u | u in r.users && !Settled(r.phase, u));
    case _ => QuietSame(r, step);
  }

  lemma AbortedSame(r: Room, more: set<int>)
    ensures r.phase.Playing? ==> SameMembers(r, CheckAllReady(r.(phase := Playing(r.phase.results, r.phase.aborted + more))).0)
  {
    if r.phase.Playing? {
      CheckSame(r.(phase := Playing(r.phase.results, r.phase.aborted + more)));
    }
  }

  /** A listed room may change as long as its members do not. */
  lemma PutKeeps(h: State, ref: nat, r: Room, pending: set<nat>)
    requires Inv(h) && Listed(h, ref) && SameMembers(h.heap[ref], r) && RoomSafety.Inv(r)
    ensures Inv(h.(heap := h.heap[ref := r], pending := pending))
  {
    var h' := h.(heap := h.heap[ref := r], pending := pending);
    forall u | u in h'.users
      ensures UserOk(h', u)
    {
      assert UserOk(h, u);
    }
    forall id | id in h'.rooms && h'.rooms[id] in h'.heap
      ensures MembersOk(h', h'.rooms[id])
    {
      assert MembersOk(h, h.rooms[id]);
    }
  }

  // ---- Disbanding ----

  lemma LeaveMembers(r: Room, user: int, monitor: bool)
    ensures SameMembers(RemoveMember(r, user, monitor), Leave(r, user, monitor).0)
  {
    var r1 := RemoveMember(r, user, monitor);
    CheckSame(r1);
    match Rooms.HostRotation.Pick(r1.users, user)
    case Some(next) => CheckSame(r1.(host := next));
    case None =>
  }

  /** Whether the eviction loop makes u leave. */
  ghost predicate Evicted(h: State, ref: nat, u: int, order: seq<int>)
    requires ref in h.heap
  {
    && u in order && u in h.users && h.users[u].room.Some?
    && h.users[u].room.value in h.heap && h.heap[h.users[u].room.value].id == h.heap[ref].id
  }

  ghost predicate EvictedTo(h: State, ref: nat, order: seq<int>, h': State)
    requires ref in h.heap
  {
    && h'.rooms == h.rooms && h'.pending == h.pending && h'.users.Keys == h.users.Keys
    && h'.heap.Keys == h.heap.Keys && h'.heap[ref].id == h.heap[ref].id
    && (forall x :: x in h.heap && x != ref ==> h'.heap[x] == h.heap[x])
    && (forall u :: u in h.users ==> h'.users[u] == if Evicted(h, ref, u, order) then h.users[u].(room := None) else h.users[u])
  }

  /** One eviction, and then the rest. */
  lemma EvictedFirst(h: State, ref: nat, order: seq<int>, h1: State, h': State)
    requires ref in h.heap && order != [] && Evicted(h, ref, order[0], order)
    requires ref in h1.heap && h1.heap[ref].id == h.heap[ref].id
    requires h1 == h.(heap := h.heap[ref := h1.heap[ref]], users := h.users[order[0] := h.users[order[0]].(room := None)])
    requires EvictedTo(h1, ref, order[1..], h')
    ensures EvictedTo(h, ref, order, h')
  {
    assert order == [order[0]] + order[1..];
  }

  lemma {:induction false} EvictEffect(h: State, ref: nat, order: seq<int>)
    requires ref in h.heap
    ensures EvictedTo(h, ref, order, Evict(h, ref, order))
    decreases |order|
  {
    if order != [] {
      var u := order[0];
      assert order == [u] + order[1..];
      if Evicted(h, ref, u, order) {
        LeaveMembers(h.heap[ref], u, h.users[u].monitor);
        var h1 := h.(heap := h.heap[ref := Leave(h.heap[ref], u, h.users[u].monitor).0], users := h.users[u := h.users[u].(room := None)]);
        EvictEffect(h1, ref, order[1..]);
        EvictedFirst(h, ref, order, h1, Evict(h1, ref, order[1..]));
      } else {
        EvictEffect(h, ref, order[1..]);
      }
    }
  }

  ghost predicate AllIn(r: Room, order: seq<int>) {
    (forall u :: u in r.users ==> u in order) && (forall u :: u in r.monitors ==> u in order)
  }

  /** Disbanding a listed room frees all its members and touches nobody else. */
  lemma UnlistKeeps(h: State, ref: nat, order: seq<int>, h1: State)
    requires Inv(h) && Listed(h, ref) && AllIn(h.heap[ref], order)
    requires EvictedTo(h, ref, order, h1)
    ensures Inv(h1.(rooms := h1.rooms - {h.heap[ref].id}))
  {
    var id := h.heap[ref].id;
    var h' := h1.(rooms := h1.rooms - {id});
    forall u | u in h'.users
      ensures UserOk(h', u)
    {
      assert UserOk(h, u);
      if h'.users[u].room.Some? {
        assert !Evicted(h, ref, u, order);
      }
    }
    forall k | k in h'.rooms && h'.rooms[k] in h'.heap
      ensures MembersOk(h', h'.rooms[k])
    {
      assert MembersOk(h, h.rooms[k]) && h.rooms[k] != ref;
    }
  }

  lemma DisbandKeeps(h: State, ref: nat, order: seq<int>)
    requires Inv(h) && Listed(h, ref) && AllIn(h.heap[ref], order)
    ensures Inv(DisbandRoom(h, ref, order))
  {
    var r := h.heap[ref].(readyArmed := false, deadlineArmed := false);
    var h0 := h.(heap := h.heap[ref := r]);
    assert h0.pending == h.pending;
    PutKeeps(h, ref, r, h.pending);
    EvictEffect(h0, ref, order);
    UnlistKeeps(h0, ref, order, Evict(h0, ref, order));
  }

  // ---- Creating, joining, leaving ----

  lemma CreateKeeps(h: State, user: int, id: string, max: nat, ref: nat)
    requires Inv(h) && user in h.users && h.users[user].room.None? && id !in h.rooms && ref !in h.heap && max >= 1
    ensures Inv(Create(h, user, id, max, ref)) <==> !h.users[user].monitor
  {
    var h' := Create(h, user, id, max, ref);
    RoomSafety.CreatedOk(id, user, max);
    assert user in h'.heap[ref].users by { assert h'.heap[ref].users[0] == user; }
    if h.users[user].monitor {
      assert !MembersOk(h', h'.rooms[id]);
    } else {
      forall u | u in h'.users
        ensures UserOk(h', u)
      {
        assert UserOk(h, u);
      }
      forall k | k in h'.rooms && h'.rooms[k] in h'.heap
        ensures MembersOk(h', h'.rooms[k])
      {
        assert k != id ==> MembersOk(h, h.rooms[k]);
      }
    }
  }

  lemma JoinMembers(r: Room, user: int, monitor: bool, canMonitor: bool)
    requires user !in r.users && user !in r.monitors && Join(r, user, monitor, canMonitor).1.Done?
    ensures var r' := Join(r, user, monitor, canMonitor).0;
            && r'.id == r.id
            && r'.users == (if monitor then r.users else r.users + [user])
            && r'.monitors == (if monitor then r.monitors + [user] else r.monitors)
  {
  }

  /** Nobody but `user` enters or leaves the room, and `user` ends up where the new record says. */
  ghost predicate OneMoves(r: Room, r': Room, ref: nat, user: int, now: User) {
    && r'.id == r.id
    && (forall u :: u != user ==> (u in r'.users <==> u in r.users) && (u in r'.monitors <==> u in r.monitors))
    && (user in r'.users <==> now == User(Some(ref), false))
    && (user in r'.monitors <==> now == User(Some(ref), true))
    && (now.room.Some? ==> now.room.value == ref)
  }

  lemma MoveUsers(h: State, ref: nat, r': Room, user: int, now: User, u: int)
    requires Inv(h) && Listed(h, ref) && user in h.users && OneMoves(h.heap[ref], r', ref, user, now) && u in h.users
    ensures UserOk(h.(heap := h.heap[ref := r'], users := h.users[user := now]), u)
  {
    assert UserOk(h, u);
  }

  lemma MoveMembers(h: State, ref: nat, r': Room, user: int, now: User, id: string)
    requires Inv(h) && Listed(h, ref) && user in h.users && OneMoves(h.heap[ref], r', ref, user, now)
    requires h.users[user].room.None? || h.users[user].room.value == ref
    requires id in h.rooms && h.rooms[id] in h.heap
    ensures MembersOk(h.(heap := h.heap[ref := r'], users := h.users[user := now]), h.rooms[id])
  {
    assert MembersOk(h, h.rooms[id]);
  }

  lemma MoveKeeps(h: State, ref: nat, r': Room, user: int, now: User)
    requires Inv(h) && Listed(h, ref) && RoomSafety.Inv(r') && user in h.users && OneMoves(h.heap[ref], r', ref, user, now)
    requires h.users[user].room.None? || h.users[user].room.value == ref
    ensures Inv(h.(heap := h.heap[ref := r'], users := h.users[user := now]))
  {
    var h' := h.(heap := h.heap[ref := r'], users := h.users[user := now]);
    forall u | u in h'.users
      ensures UserOk(h', u)
    {
      MoveUsers(h, ref, r', user, now, u);
    }
    forall id | id in h'.rooms && h'.rooms[id] in h'.heap
      ensures MembersOk(h', h'.rooms[id])
    {
      MoveMembers(h, ref, r', user, now, id);
    }
  }

  lemma EnterKeeps(h: State, user: int, id: string, monitor: bool, canMonitor: bool)
    requires Inv(h) && user in h.users && h.users[user].room.None? && id in h.rooms && h.rooms[id] in h.heap
    ensures Inv(Enter(h, user, h.rooms[id], monitor, canMonitor))
  {
    var ref := h.rooms[id];
    var r := h.heap[ref];
    assert MembersOk(h, ref);
    assert user !in r.users && user !in r.monitors;
    if Join(r, user, monitor, canMonitor).1.Done? {
      RoomSafety.JoinKeeps(r, user, monitor, canMonitor);
      JoinMembers(r, user, monitor, canMonitor);
      MoveKeeps(h, ref, Join(r, user, monitor, canMonitor).0, user, User(Some(ref), monitor));
    }
  }

  // ---- Leaving ----

  /** The last player leaves a room that still has monitors. */
  ghost predicate Abandons(r: Room, user: int, monitor: bool) {
    r.host == user && RemoveMember(r, user, monitor).users == [] && RemoveMember(r, user, monitor).monitors != []
  }

  lemma RemovedMembers(r: Room, user: int, monitor: bool)
    requires RoomSafety.MembersOk(r) && (if monitor then user in r.monitors else user in r.users)
    ensures var r1 := RemoveMember(r, user, monitor);
            && (forall u :: u in r1.users <==> u in r.users && u != user)
            && (forall u :: u in r1.monitors <==> u in r.monitors && u != user)
  {
    RoomSafety.WithoutIs(r.users, user);
    RoomSafety.WithoutIs(r.monitors, user);
  }

  /**
   A leave answers both that the room is to be dropped and that it is to be disbanded exactly when it
   takes the last member, not the host, out of a running contest.
   */
  lemma BothExactly(r: Room, user: int, monitor: bool)
    ensures var (_, drop, disband) := Leave(r, user, monitor);
            var r1 := RemoveMember(r, user, monitor);
            drop && disband <==>
            r.host != user && r1.users == [] && r1.monitors == [] && r.phase.Playing? && r.contest.Some? && r.contest.value.autoDisband
  {
    Rooms.HostRotation.PickIsSuccessor(RemoveMember(r, user, monitor).users, user, user);
  }

  /** A listed room is dropped exactly when its last player, the host, leaves; it is never dropped and disbanded at once. */
  lemma DropExactly(r: Room, user: int, monitor: bool)
    requires RoomSafety.Inv(r) && (if monitor then user in r.monitors else user in r.users)
    ensures var (r', drop, disband) := Leave(r, user, monitor);
            && (drop <==> r.host == user && RemoveMember(r, user, monitor).users == [])
            && !(drop && disband)
  {
    RemovedMembers(r, user, monitor);
    BothExactly(r, user, monitor);
    DropCases(r, user, monitor);
    assert r.host != user ==> r.host in RemoveMember(r, user, monitor).users;
  }

  lemma DropCases(r: Room, user: int, monitor: bool)
    ensures var r1 := RemoveMember(r, user, monitor);
            Leave(r, user, monitor).1 <==> r1.users == [] && (r.host == user || r1.monitors == [])
  {
    var r1 := RemoveMember(r, user, monitor);
    Rooms.HostRotation.PickIsSuccessor(r1.users, user, user);
    CheckSame(r1);
    match Rooms.HostRotation.Pick(r1.users, user)
    case Some(next) => CheckSame(r1.(host := next));
    case None =>
  }

  lemma StayKeeps(h: State, user: int, ref: nat)
    requires Inv(h) && user in h.users && h.users[user].room == Some(ref)
    requires ref in h.heap && !Leave(h.heap[ref], user, h.users[user].monitor).1
    ensures var r' := Leave(h.heap[ref], user, h.users[user].monitor).0;
            && Listed(h, ref) && r'.id == h.heap[ref].id
            && Inv(h.(heap := h.heap[ref := r'], users := h.users[user := h.users[user].(room := None)]))
  {
    assert UserOk(h, user);
    var r, monitor := h.heap[ref], h.users[user].monitor;
    RemovedMembers(r, user, monitor);
    LeaveMembers(r, user, monitor);
    assert monitor == RoomSafety.Role(r, user);
    RoomSafety.LeaveKeeps(r, user);
    MoveKeeps(h, ref, Leave(r, user, monitor).0, user, h.users[user].(room := None));
  }

  lemma DropUser(h: State, user: int, ref: nat, r': Room, u: int)
    requires Inv(h) && user in h.users && Listed(h, ref) && u in h.users
    requires forall x :: x in h.heap[ref].users || x in h.heap[ref].monitors ==> x == user
    ensures UserOk(h.(rooms := h.rooms - {h.heap[ref].id}, heap := h.heap[ref := r'], users := h.users[user := h.users[user].(room := None)]), u)
  {
    assert UserOk(h, u);
  }

  lemma DropKeeps(h: State, user: int, ref: nat, r': Room)
    requires Inv(h) && user in h.users && h.users[user].room == Some(ref) && ref in h.heap
    requires var r1 := RemoveMember(h.heap[ref], user, h.users[user].monitor); r1.users == [] && r1.monitors == []
    ensures Inv(h.(rooms := h.rooms - {h.heap[ref].id}, heap := h.heap[ref := r'], users := h.users[user := h.users[user].(room := None)]))
  {
    assert UserOk(h, user);
    RemovedMembers(h.heap[ref], user, h.users[user].monitor);
    var id := h.heap[ref].id;
    var h' := h.(rooms := h.rooms - {id}, heap := h.heap[ref := r'], users := h.users[user := h.users[user].(room := None)]);
    forall u | u in h'.users
      ensures UserOk(h', u)
    {
      DropUser(h, user, ref, r', u);
    }
    forall k | k in h'.rooms && h'.rooms[k] in h'.heap
      ensures MembersOk(h', h'.rooms[k])
    {
      DropMembers(h, user, ref, r', k);
    }
  }

  lemma DropMembers(h: State, user: int, ref: nat, r': Room, k: string)
    requires Inv(h) && user in h.users && h.users[user].room == Some(ref) && Listed(h, ref)
    requires k in h.rooms && k != h.heap[ref].id && h.rooms[k] in h.heap
    ensures h.rooms[k] != ref
    ensures MembersOk(h.(rooms := h.rooms - {h.heap[ref].id}, heap := h.heap[ref := r'], users := h.users[user := h.users[user].(room := None)]), h.rooms[k])
  {
    assert MembersOk(h, h.rooms[k]);
  }

  /** Dropping a room with monitors inside leaves them pointing at a room that is not listed. */
  lemma AbandonBreaks(h: State, user: int, ref: nat, order: seq<int>)
    requires Inv(h) && user in h.users && h.users[user].room == Some(ref) && ref in h.heap
    requires Abandons(h.heap[ref], user, h.users[user].monitor)
    ensures !Inv(Exit(h, user, ref, order))
  {
    assert UserOk(h, user);
    var r, monitor := h.heap[ref], h.users[user].monitor;
    RemovedMembers(r, user, monitor);
    DropExactly(r, user, monitor);
    LeaveMembers(r, user, monitor);
    assert MembersOk(h, ref);
    var m := RemoveMember(r, user, monitor).monitors[0];
    assert m in RemoveMember(r, user, monitor).monitors;
    assert m in r.monitors && m != user;
    var h' := Exit(h, user, ref, order);
    assert h'.users[m] == User(Some(ref), true) && r.id !in h'.rooms;
    assert !UserOk(h', m);
  }

  /** Leaving keeps table and pointers in agreement exactly when no monitors are left behind in a dropped room. */
  lemma ExitExactly(h: State, user: int, ref: nat, order: seq<int>)
    requires Inv(h) && user in h.users && h.users[user].room == Some(ref) && ref in h.heap
    requires forall u :: u in order <==> u in RemoveMember(h.heap[ref], user, h.users[user].monitor).snapshot
    ensures Inv(Exit(h, user, ref, order)) <==> !Abandons(h.heap[ref], user, h.users[user].monitor)
  {
    assert UserOk(h, user);
    var r, monitor := h.heap[ref], h.users[user].monitor;
    var (r', drop, disband) := Leave(r, user, monitor);
    DropExactly(r, user, monitor);
    LeaveMembers(r, user, monitor);
    if Abandons(r, user, monitor) {
      AbandonBreaks(h, user, ref, order);
    } else if drop {
      DropKeeps(h, user, ref, r');
    } else {
      StayKeeps(h, user, ref);
      if disband {
        var h1 := h.(heap := h.heap[ref := r'], users := h.users[user := h.users[user].(room := None)]);
        SnapshotCovers(r', order);
        DisbandKeeps(h1, ref, order);
      }
    }
  }

  lemma SnapshotCovers(r: Room, order: seq<int>)
    requires RoomSafety.MembersOk(r) && forall u :: u in order <==> u in r.snapshot
    ensures AllIn(r, order)
  {
    forall u
      ensures r.snapshot[u] == if u in r.users || u in r.monitors then 1 else 0
    {
      RoomSafety.SnapshotExact(r, u);
    }
  }

  lemma ForgetKeeps(h: State, user: int)
    requires Inv(h) && (user in h.users ==> h.users[user].room.None?)
    ensures Inv(h.(users := h.users - {user}))
  {
    var h' := h.(users := h.users - {user});
    forall u | u in h'.users
      ensures UserOk(h', u)
    {
      assert UserOk(h, u);
    }
    forall id | id in h'.rooms && h'.rooms[id] in h'.heap
      ensures MembersOk(h', h'.rooms[id])
    {
      assert MembersOk(h, h.rooms[id]);
    }
  }

  // ---- Every step ----

  /** What the agreement depends on: the two role conditions, and somebody ready when the countdown fires. */
  ghost predicate Careful(h: State, act: Action) {
    match act
    case CreateRoom(user, id, _, _, allowed) =>
      user in h.users && allowed && h.users[user].room.None? && id !in h.rooms ==> !h.users[user].monitor
    case LeaveRoom(user, _, _) =>
      user in h.users && h.users[user].room.Some? && h.users[user].room.value in h.heap ==>
        !Abandons(h.heap[h.users[user].room.value], user, h.users[user].monitor)
    case Timer(ref, step, _) => step.ReadyFires? && ref in h.heap ==> RoomSafety.SomeoneReady(h.heap[ref])
    case _ => true
  }

  lemma SettleKeeps(h: State, ref: nat, step: RoomSafety.Step, order: seq<int>, pending: set<nat>)
    requires Inv(h) && Listed(h, ref) && Participants(h, ref, order)
    requires !step.DoJoin? && !step.DoLeave? && RoomSafety.Possible(h.heap[ref], step)
    requires step.ReadyFires? ==> RoomSafety.SomeoneReady(h.heap[ref])
    ensures var (r, v) := RoomSafety.After(h.heap[ref], step);
            && Inv(h.(heap := h.heap[ref := r], pending := pending))
            && Inv(Settle(h, ref, r, v, order))
  {
    var (r, v) := RoomSafety.After(h.heap[ref], step);
    RoomSafety.StepKeeps(h.heap[ref], step);
    StepSame(h.heap[ref], step);
    PutKeeps(h, ref, r, pending);
    PutKeeps(h, ref, r, h.pending);
    var h1 := h.(heap := h.heap[ref := r]);
    assert h1 == h.(heap := h.heap[ref := r], pending := h.pending);
    if v.Disband? {
      SnapshotCovers(r, order);
      DisbandKeeps(h1, ref, order);
    }
  }

  lemma CommandKeeps(h: State, user: int, step: RoomSafety.Step, order: seq<int>)
    requires Inv(h) && Enabled(h, Command(user, step, order))
    ensures Inv(Do(h, Command(user, step, order)))
  {
    assert UserOk(h, user);
    var ref := h.users[user].room.value;
    SettleKeeps(h, ref, step, order, h.pending + {ref});
  }

  lemma LeaveRoomKeeps(h: State, user: int, remove: bool, order: seq<int>)
    requires Inv(h) && Enabled(h, LeaveRoom(user, remove, order)) && Careful(h, LeaveRoom(user, remove, order))
    ensures Inv(Do(h, LeaveRoom(user, remove, order)))
  {
    if h.users[user].room.Some? {
      var ref := h.users[user].room.value;
      ExitExactly(h, user, ref, order);
      ExitRoomless(h, user, ref, order);
      ForgetKeeps(Exit(h, user, ref, order), user);
    } else {
      ForgetKeeps(h, user);
    }
  }

  lemma ExitRoomless(h: State, user: int, ref: nat, order: seq<int>)
    requires user in h.users && ref in h.heap
    ensures var h' := Exit(h, user, ref, order); user in h'.users && h'.users[user].room.None?
  {
    var (r, drop, disband) := Leave(h.heap[ref], user, h.users[user].monitor);
    if disband {
      var h1 := h.(heap := h.heap[ref := r], users := h.users[user := h.users[user].(room := None)]);
      var h2 := if drop then h1.(rooms := h1.rooms - {r.id}) else h1;
      EvictEffect(h2.(heap := h2.heap[ref := r.(readyArmed := false, deadlineArmed := false)]), ref, order);
    }
  }

  lemma StepKeeps(h: State, act: Action)
    requires Inv(h) && Enabled(h, act) && Careful(h, act)
    ensures Inv(Do(h, act))
  {
    match act
    case Arrive(user) => ArriveKeeps(h, user);
    case CreateRoom(user, id, max, ref, allowed) =>
      if allowed && h.users[user].room.None? && id !in h.rooms { CreateKeeps(h, user, id, max, ref); }
    case JoinRoom(user, id, monitor, canMonitor, allowed) =>
      if h.users[user].room.None? && id in h.rooms { EnterKeeps(h, user, id, monitor, canMonitor); }
    case LeaveRoom(user, remove, order) => LeaveRoomKeeps(h, user, remove, order);
    case Command(user, step, order) => CommandKeeps(h, user, step, order);
    case Timer(ref, step, order) => SettleKeeps(h, ref, step, order, h.pending);
    case Administer(ref, step) => AdministerKeeps(h, ref, step);
    case DisbandListed(ref, order) =>
      SnapshotCovers(h.heap[ref], order);
      DisbandKeeps(h, ref, order);
    case DisbandPending(ref, order) => PendingKeeps(h, ref, order);
  }

  lemma ArriveKeeps(h: State, user: int)
    requires Inv(h) && user !in h.users
    ensures Inv(h.(users := h.users[user := User(None, false)]))
  {
    var h' := h.(users := h.users[user := User(None, false)]);
    forall u | u in h'.users
      ensures UserOk(h', u)
    {
      assert u in h.users ==> UserOk(h, u);
    }
    forall id | id in h'.rooms && h'.rooms[id] in h'.heap
      ensures MembersOk(h', h'.rooms[id])
    {
      assert MembersOk(h, h.rooms[id]);
    }
  }

  lemma AdministerKeeps(h: State, ref: nat, step: RoomSafety.Step)
    requires Inv(h) && Listed(h, ref) && RoomSafety.IsAdministrative(step)
    ensures Inv(h.(heap := h.heap[ref := RoomSafety.After(h.heap[ref], step).0]))
  {
    var r := RoomSafety.After(h.heap[ref], step).0;
    RoomSafety.StepKeeps(h.heap[ref], step);
    StepSame(h.heap[ref], step);
    PutKeeps(h, ref, r, h.pending);
    assert h.(heap := h.heap[ref := r]) == h.(heap := h.heap[ref := r], pending := h.pending);
  }

  lemma PendingKeeps(h: State, ref: nat, order: seq<int>)
    requires Inv(h) && Enabled(h, DisbandPending(ref, order))
    ensures Inv(Do(h, DisbandPending(ref, order)))
  {
    var h1 := h.(pending := h.pending - {ref});
    assert Inv(h1) by {
      forall u | u in h1.users
        ensures UserOk(h1, u)
      {
        assert UserOk(h, u);
      }
      forall id | id in h1.rooms && h1.rooms[id] in h1.heap
        ensures MembersOk(h1, h1.rooms[id])
      {
        assert MembersOk(h, h.rooms[id]);
      }
    }
    if Listed(h, ref) {
      SnapshotCovers(h.heap[ref], order);
      DisbandKeeps(h1, ref, order);
    }
  }

  // ---- Every run ----

  ghost predicate Next(h: State, act: Action, h': State) {
    match act
    case _ => Enabled(h, act) && h' == Do(h, act)
  }

  ghost predicate Run(states: seq<State>, acts: seq<Action>) {
    |states| == |acts| + 1 && forall i :: 0 <= i < |acts| ==> Next(states[i], acts[i], states[i + 1])
  }

  const EMPTY := State(map[], map[], map[], {})

  /** In every careful run, room table and users agree, every listed room has its host among its players, and no round is wedged. */
  lemma {:induction false} RunKeeps(states: seq<State>, acts: seq<Action>, i: nat)
    requires Run(states, acts) && states[0] == EMPTY && i < |states|
    requires forall k :: 0 <= k < |acts| ==> Careful(states[k], acts[k])
    ensures Inv(states[i])
    decreases i
  {
    if i > 0 {
      RunKeeps(states, acts, i - 1);
      assert Next(states[i - 1], acts[i - 1], states[i]) && Careful(states[i - 1], acts[i - 1]);
      StepKeeps(states[i - 1], acts[i - 1]);
    }
  }

  // ---- Runs without monitors ----

  ghost predicate NoMonitors(h: State) {
    match h
    case State(_, _, users, _) => forall u :: u in users ==> !users[u].monitor
  }

  lemma HeadIsMember(s: seq<int>)
    ensures s != [] ==> s[0] in s
  {
  }

  /** Without monitors the role conditions hold by themselves. */
  lemma NoMonitorsCareful(h: State, act: Action)
    requires Inv(h) && NoMonitors(h) && Enabled(h, act) && !act.Timer?
    ensures Careful(h, act)
  {
    match act
    case LeaveRoom(user, _, _) =>
      if h.users[user].room.Some? {
        assert UserOk(h, user);
        var ref := h.users[user].room.value;
        assert MembersOk(h, ref);
        RemovedMembers(h.heap[ref], user, false);
        HeadIsMember(RemoveMember(h.heap[ref], user, false).monitors);
      }
    case _ =>
  }

  lemma DisbandRoles(h: State, ref: nat, order: seq<int>)
    requires ref in h.heap && NoMonitors(h)
    ensures NoMonitors(DisbandRoom(h, ref, order))
  {
    EvictEffect(h.(heap := h.heap[ref := h.heap[ref].(readyArmed := false, deadlineArmed := false)]), ref, order);
  }

  lemma NoMonitorsStay(h: State, act: Action)
    requires NoMonitors(h) && Enabled(h, act) && (act.JoinRoom? ==> !act.monitor)
    ensures NoMonitors(Do(h, act))
  {
    match act
    case LeaveRoom(user, remove, order) =>
      if h.users[user].room.Some? {
        var ref := h.users[user].room.value;
        var (r, drop, disband) := Leave(h.heap[ref], user, h.users[user].monitor);
        var h1 := h.(heap := h.heap[ref := r], users := h.users[user := h.users[user].(room := None)]);
        DisbandRoles(if drop then h1.(rooms := h1.rooms - {r.id}) else h1, ref, order);
      }
    case Command(user, step, order) =>
      var ref := h.users[user].room.value;
      DisbandRoles(h.(heap := h.heap[ref := RoomSafety.After(h.heap[ref], step).0]), ref, order);
    case Timer(ref, step, order) =>
      DisbandRoles(h.(heap := h.heap[ref := RoomSafety.After(h.heap[ref], step).0]), ref, order);
    case DisbandListed(ref, order) => DisbandRoles(h, ref, order);
    case DisbandPending(ref, order) => DisbandRoles(h.(pending := h.pending - {ref}), ref, order);
    case _ =>
  }

  /** In a run in which nobody joins as a monitor, the agreement needs no condition but somebody ready at a forced start. */
  lemma {:induction false} MonitorFreeRun(states: seq<State>, acts: seq<Action>, i: nat)
    requires Run(states, acts) && states[0] == EMPTY && i < |states|
    requires forall k :: 0 <= k < |acts| ==> (acts[k].JoinRoom? ==> !acts[k].monitor) && (acts[k].Timer? ==> Careful(states[k], acts[k]))
    ensures Inv(states[i]) && NoMonitors(states[i])
    decreases i
  {
    if i > 0 {
      MonitorFreeRun(states, acts, i - 1);
      assert Next(states[i - 1], acts[i - 1], states[i]);
      if !acts[i - 1].Timer? {
        NoMonitorsCareful(states[i - 1], acts[i - 1]);
      }
      StepKeeps(states[i - 1], acts[i - 1]);
      NoMonitorsStay(states[i - 1], acts[i - 1]);
    }
  }

  // ---- What goes wrong otherwise ----

  /** The last monitor of a dropped room takes another room of the same ID off the table when leaving. */
  lemma StaleLeaveUnlistsNamesake(h: State, m: int, stale: nat, ref: nat)
    requires m in h.users && h.users[m] == User(Some(stale), true) && stale in h.heap
    requires h.heap[stale].users == [] && h.heap[stale].monitors == [m] && h.heap[stale].host != m
    requires Listed(h, ref) && ref != stale && h.heap[stale].id == h.heap[ref].id
    ensures var h' := Exit(h, m, stale, []);
            && h.heap[ref].id !in h'.rooms && h'.heap[ref] == h.heap[ref]
            && forall u :: u in h.users && u != m ==> u in h'.users && h'.users[u] == h.users[u]
  {
    assert Without([m], m) == [];
    LeaveMembers(h.heap[stale], m, true);
  }

  /** In such a room the last leave answers both that it is to be dropped and that it is to be disbanded. */
  lemma DroppedAndDisbanded(r: Room, m: int)
    requires r.users == [] && r.monitors == [m] && r.host != m
    requires r.phase.Playing? && r.contest.Some? && r.contest.value.autoDisband
    ensures Leave(r, m, true).1 && Leave(r, m, true).2
  {
    assert Without([m], m) == [];
    BothExactly(r, m, true);
  }

  /** A former monitor who opens a room and leaves it stays behind as its host and only player. */
  lemma PhantomHost(h: State, user: int, id: string, max: nat, ref: nat, order: seq<int>)
    requires user in h.users && h.users[user] == User(None, true) && id !in h.rooms && ref !in h.heap && max >= 1
    ensures var h1 := Create(h, user, id, max, ref);
            var h2 := Exit(h1, user, ref, order);
            h2.users[user].room.None? && Listed(h2, ref) && h2.heap[ref].users == [user] && h2.heap[ref].host == user
  {
    var h1 := Create(h, user, id, max, ref);
    var r := RemoveMember(h1.heap[ref], user, true);
    assert r.users == [user] && Without([], user) == [];
    Rooms.HostRotation.PickIsSuccessor([user], user, user);
    assert Rooms.HostRotation.Pick(r.users, user) == Some(user);
  }

  // ---- Runs that lead there ----

  lemma RunSnoc(states: seq<State>, acts: seq<Action>, act: Action, h: State)
    requires Run(states, acts) && Next(states[|acts|], act, h)
    ensures Run(states + [h], acts + [act])
  {
  }

  /** Player 1's room with player 2 in it, as a player or as a monitor. */
  function TwoIn(monitor: bool): Room {
    var r := Created("room", 1, 8);
    if monitor then r.(monitors := [2], monitorUsers := {2}, snapshot := multiset{1, 2})
    else r.(users := [1, 2], usersMap := {1, 2}, snapshot := multiset{1, 2})
  }

  function InContest(monitor: bool): Room {
    TwoIn(monitor).(contest := Some(Contest({1, 2}, true, true)))
  }

  function InPlay(monitor: bool): Room {
    InContest(monitor).(chart := Some(7), phase := Playing(map[], {}), starts := 1)
  }

  /** Both users are in the one room. */
  function Hall(r: Room, monitor: bool): State {
    State(map["room" := 0], map[0 := r], map[1 := User(Some(0), false), 2 := User(Some(0), monitor)], {})
  }

  lemma Opened()
    ensures var h := State(map[], map[], map[1 := User(None, false), 2 := User(None, false)], {});
            var act := CreateRoom(1, "room", 8, 0, true);
            && Enabled(h, act)
            && Do(h, act) == State(map["room" := 0], map[0 := Created("room", 1, 8)], map[1 := User(Some(0), false), 2 := User(None, false)], {})
  {
  }

  lemma JoinedTwo(monitor: bool)
    ensures Join(Created("room", 1, 8), 2, monitor, monitor) == (TwoIn(monitor), Done)
  {
    var r := Created("room", 1, 8);
    var r' := AddUser(r, 2, monitor).0;
    assert r.users == [1] && r.monitors == [] && r.usersMap == {1} && r.monitorUsers == {};
    assert r'.usersMap == TwoIn(monitor).usersMap && r'.monitorUsers == TwoIn(monitor).monitorUsers;
    assert r'.snapshot == multiset(r'.usersMap) + multiset(r'.monitorUsers) == multiset{1, 2};
    assert r'.users == TwoIn(monitor).users;
    assert r'.monitors == TwoIn(monitor).monitors;
    assert r' == TwoIn(monitor);
    assert AddUser(r, 2, monitor).1 && ValidJoin(r, 2, monitor, monitor);
    assert HandleJoin(r', 2, monitor) == r';
  }

  lemma Joined(monitor: bool)
    ensures var h := State(map["room" := 0], map[0 := Created("room", 1, 8)], map[1 := User(Some(0), false), 2 := User(None, false)], {});
            var act := JoinRoom(2, "room", monitor, monitor, true);
            Enabled(h, act) && Do(h, act) == Hall(TwoIn(monitor), monitor)
  {
    JoinedTwo(monitor);
  }

  /** A step inside the room. */
  lemma Administered(r: Room, monitor: bool, step: RoomSafety.Step)
    requires r.id == "room" && RoomSafety.IsAdministrative(step)
    ensures Enabled(Hall(r, monitor), Administer(0, step))
    ensures Do(Hall(r, monitor), Administer(0, step)) == Hall(RoomSafety.After(r, step).0, monitor)
  {
  }

  lemma Commanded(r: Room, monitor: bool, user: int, step: RoomSafety.Step)
    requires r.id == "room" && (user == 1 || user == 2) && MemberStep(step, user) && r.snapshot == multiset{1, 2}
    requires RoomSafety.After(r, step).1.Done?
    ensures Enabled(Hall(r, monitor), Command(user, step, [1, 2]))
    ensures Do(Hall(r, monitor), Command(user, step, [1, 2])) == Hall(RoomSafety.After(r, step).0, monitor)
  {
  }

  lemma Contested(monitor: bool)
    ensures EnableContest(TwoIn(monitor), []) == InContest(monitor)
  {
    var r := TwoIn(monitor);
    assert r.users[0] == 1;
    if monitor { assert r.monitors[0] == 2; } else { assert r.users[1] == 2; }
    assert Whitelist(r, []) == {1, 2};
  }

  lemma Started(monitor: bool)
    ensures var waiting := InContest(monitor).(chart := Some(7), phase := WaitForReady({1}));
            && RequestStart(InContest(monitor).(chart := Some(7)), 1) == (waiting, Done)
            && StartContest(waiting, true) == (InPlay(monitor), Done)
  {
  }

  /** Player 2 has joined player 1's room. */
  lemma RunToHall(monitor: bool) returns (states: seq<State>, acts: seq<Action>)
    ensures Run(states, acts) && states[0] == EMPTY && states[|acts|] == Hall(TwoIn(monitor), monitor)
  {
    states, acts := [EMPTY], [];
    states, acts := Proceed(states, acts, Arrive(1), State(map[], map[], map[1 := User(None, false)], {}));
    states, acts := Proceed(states, acts, Arrive(2), State(map[], map[], map[1 := User(None, false), 2 := User(None, false)], {}));
    Opened();
    states, acts := Proceed(states, acts, CreateRoom(1, "room", 8, 0, true),
                            State(map["room" := 0], map[0 := Created("room", 1, 8)], map[1 := User(Some(0), false), 2 := User(None, false)], {}));
    Joined(monitor);
    states, acts := Proceed(states, acts, JoinRoom(2, "room", monitor, monitor, true), Hall(TwoIn(monitor), monitor));
  }

  /** The contest in player 1's room is running. */
  lemma RunToPlay(monitor: bool) returns (states: seq<State>, acts: seq<Action>)
    ensures Run(states, acts) && states[0] == EMPTY && states[|acts|] == Hall(InPlay(monitor), monitor)
  {
    states, acts := RunToHall(monitor);
    states, acts := RunInHall(states, acts, monitor);
  }

  lemma Proceed(states: seq<State>, acts: seq<Action>, act: Action, h: State) returns (states': seq<State>, acts': seq<Action>)
    requires Run(states, acts) && states[0] == EMPTY && Next(states[|acts|], act, h)
    ensures Run(states', acts') && states'[0] == EMPTY && states' == states + [h] && acts' == acts + [act]
  {
    RunSnoc(states, acts, act, h);
    states', acts' := states + [h], acts + [act];
  }

  lemma RunInHall(states: seq<State>, acts: seq<Action>, monitor: bool) returns (states': seq<State>, acts': seq<Action>)
    requires Run(states, acts) && states[0] == EMPTY && states[|acts|] == Hall(TwoIn(monitor), monitor)
    ensures Run(states', acts') && states'[0] == EMPTY && states'[|acts'|] == Hall(InPlay(monitor), monitor)
  {
    Contested(monitor);
    Administered(TwoIn(monitor), monitor, RoomSafety.DoEnableContest([]));
    states', acts' := Proceed(states, acts, Administer(0, RoomSafety.DoEnableContest([])), Hall(InContest(monitor), monitor));
    states', acts' := RunChosen(states', acts', monitor, InContest(monitor).(chart := Some(7)));
  }

  lemma RunChosen(states: seq<State>, acts: seq<Action>, monitor: bool, chosen: Room) returns (states': seq<State>, acts': seq<Action>)
    requires Run(states, acts) && states[0] == EMPTY && states[|acts|] == Hall(InContest(monitor), monitor)
    requires chosen == InContest(monitor).(chart := Some(7))
    ensures Run(states', acts') && states'[0] == EMPTY && states'[|acts'|] == Hall(InPlay(monitor), monitor)
  {
    Commanded(InContest(monitor), monitor, 1, RoomSafety.DoChooseChart(1, Some(7)));
    states', acts' := Proceed(states, acts, Command(1, RoomSafety.DoChooseChart(1, Some(7)), [1, 2]), Hall(chosen, monitor));
    states', acts' := RunStarted(states', acts', monitor, chosen, chosen.(phase := WaitForReady({1})));
  }

  lemma RunStarted(states: seq<State>, acts: seq<Action>, monitor: bool, chosen: Room, waiting: Room)
    returns (states': seq<State>, acts': seq<Action>)
    requires Run(states, acts) && states[0] == EMPTY && states[|acts|] == Hall(chosen, monitor)
    requires chosen == InContest(monitor).(chart := Some(7)) && waiting == chosen.(phase := WaitForReady({1}))
    ensures Run(states', acts') && states'[0] == EMPTY && states'[|acts'|] == Hall(InPlay(monitor), monitor)
  {
    Started(monitor);
    Commanded(chosen, monitor, 1, RoomSafety.DoRequestStart(1));
    states', acts' := Proceed(states, acts, Command(1, RoomSafety.DoRequestStart(1), [1, 2]), Hall(waiting, monitor));
    Administered(waiting, monitor, RoomSafety.DoStartContest(true));
    states', acts' := Proceed(states', acts', Administer(0, RoomSafety.DoStartContest(true)), Hall(InPlay(monitor), monitor));
  }

  /** The room that the host left to the monitor. */
  function Stale(): Room {
    InPlay(true).(users := [], usersMap := {}, snapshot := multiset{2})
  }

  lemma HostAbandons()
    ensures var h := Hall(InPlay(true), true);
            && Enabled(h, LeaveRoom(1, false, [2]))
            && Do(h, LeaveRoom(1, false, [2])) == State(map[], map[0 := Stale()], map[1 := User(None, false), 2 := User(Some(0), true)], {})
  {
    var r := RemoveMember(InPlay(true), 1, false);
    assert Without([1], 1) == [] && {1} - {1} == {} && multiset({}) + multiset({2}) == multiset{2};
    assert r == Stale();
    assert Leave(InPlay(true), 1, false) == (Stale(), true, false);
  }

  /**
   A run from the empty server: the host of a running contest leaves a monitor behind and opens another
   room under the same ID. When the monitor leaves, both flags are true, and the new room is off the
   table while its host is still in it.
   */
  lemma NamesakeRun() returns (states: seq<State>, acts: seq<Action>)
    ensures Run(states, acts) && states[0] == EMPTY
    ensures var h := states[|acts|];
            && Listed(h, 1) && 1 in h.users && h.users[1].room == Some(1) && 2 in h.users && h.users[2] == User(Some(0), true)
            && 0 in h.heap && Enabled(h, LeaveRoom(2, false, []))
            && Leave(h.heap[0], 2, true).1 && Leave(h.heap[0], 2, true).2
            && var h' := Do(h, LeaveRoom(2, false, []));
               1 in h'.users && h'.users[1].room == Some(1) && 1 in h'.heap && h'.heap[1] == h.heap[1] && !Listed(h', 1)
  {
    states, acts := RunToPlay(true);
    HostAbandons();
    var h0 := State(map[], map[0 := Stale()], map[1 := User(None, false), 2 := User(Some(0), true)], {});
    states, acts := Proceed(states, acts, LeaveRoom(1, false, [2]), h0);
    var h := Create(h0, 1, "room", 8, 1);
    states, acts := Proceed(states, acts, CreateRoom(1, "room", 8, 1, true), h);
    DroppedAndDisbanded(Stale(), 2);
    StaleLeaveUnlistsNamesake(h, 2, 0, 1);
    MonitorOut(h);
  }

  lemma MonitorOut(h: State)
    requires 2 in h.users && h.users[2] == User(Some(0), true) && 0 in h.heap && h.heap[0] == Stale()
    ensures Enabled(h, LeaveRoom(2, false, [])) && Do(h, LeaveRoom(2, false, [])) == Exit(h, 2, 0, [])
  {
    var r := RemoveMember(Stale(), 2, true);
    assert r.usersMap == {} && r.monitorUsers == {};
    assert r.snapshot == multiset(r.usersMap) + multiset(r.monitorUsers) == multiset{};
  }

  /**
   A run from the empty server to an administrator's disbanding of a room whose round is running: the
   first member made to leave ends the round, and the leave answers that the room is to be disbanded.
   */
  lemma DisbandMeetsRound() returns (states: seq<State>, acts: seq<Action>)
    ensures Run(states, acts) && states[0] == EMPTY
    ensures var h := states[|acts|];
            && Listed(h, 0) && h.heap[0].phase.Playing? && Enabled(h, DisbandListed(0, [1, 2]))
            && var (r, _, disband) := Leave(h.heap[0].(readyArmed := false, deadlineArmed := false), 1, false);
               disband && r.phase.SelectChart? && r.ends == h.heap[0].ends + 1
  {
    states, acts := RunToPlay(false);
    var settled := InPlay(false).(phase := Playing(map[], {2}));
    TwoAborts(settled);
    Commanded(InPlay(false), false, 2, RoomSafety.DoAbort(2));
    states, acts := Proceed(states, acts, Command(2, RoomSafety.DoAbort(2), [1, 2]), Hall(settled, false));
    OneEvicted(settled);
  }

  lemma TwoAborts(settled: Room)
    requires settled == InPlay(false).(phase := Playing(map[], {2}))
    ensures Abort(InPlay(false), 2) == (settled, Done)
  {
    assert {} + {2} == {2} && settled.users[0] == 1 && !Settled(settled.phase, settled.users[0]);
    assert !AllSettled(settled);
  }

  lemma OneEvicted(settled: Room)
    requires settled == InPlay(false).(phase := Playing(map[], {2}))
    ensures var (r, _, disband) := Leave(settled, 1, false);
            disband && r.phase.SelectChart? && r.ends == settled.ends + 1
  {
    var r := RemoveMember(settled, 1, false);
    assert [1, 2][1..] == [2];
    RoomSafety.PickedIsMember(r, 1);
    assert Rooms.HostRotation.Pick(r.users, 1) == Some(2);
    assert AllSettled(r.(host := 2));
  }

  /** The monitor has left player 1's room and still has the role. */
  lemma MonitorLeaves()
    ensures var h := Hall(TwoIn(true), true);
            && Enabled(h, LeaveRoom(2, false, [1]))
            && Do(h, LeaveRoom(2, false, [1])) == State(map["room" := 0], map[0 := Created("room", 1, 8)], map[1 := User(Some(0), false), 2 := User(None, true)], {})
  {
    var r := RemoveMember(TwoIn(true), 2, true);
    assert Without([2], 2) == [] && r.monitorUsers == {} && r.usersMap == {1};
    assert r.snapshot == multiset(r.usersMap) + multiset(r.monitorUsers) == multiset{1};
    assert r == Created("room", 1, 8);
    assert Leave(TwoIn(true), 2, true) == (r, false, false);
  }

  lemma OwnRoom()
    ensures var r := RemoveMember(Created("own", 2, 8), 2, true);
            forall u :: u in [2] <==> u in r.snapshot
  {
    var r := RemoveMember(Created("own", 2, 8), 2, true);
    assert r.usersMap == {2} && r.monitorUsers == {};
    assert r.snapshot == multiset(r.usersMap) + multiset(r.monitorUsers) == multiset{2};
  }

  /** A run from the empty server: player 2 watches a room, leaves it, opens one of their own and leaves that. */
  lemma PhantomRun() returns (states: seq<State>, acts: seq<Action>)
    ensures Run(states, acts) && states[0] == EMPTY
    ensures var h := states[|acts|];
            && 2 in h.users && h.users[2].room.None? && Listed(h, 1) && h.heap[1].users == [2] && h.heap[1].host == 2
  {
    states, acts := RunToHall(true);
    MonitorLeaves();
    var h := State(map["room" := 0], map[0 := Created("room", 1, 8)], map[1 := User(Some(0), false), 2 := User(None, true)], {});
    states, acts := Proceed(states, acts, LeaveRoom(2, false, [1]), h);
    states, acts := OpenAndLeave(states, acts, h);
  }

  lemma OpenAndLeave(states: seq<State>, acts: seq<Action>, h: State) returns (states': seq<State>, acts': seq<Action>)
    requires Run(states, acts) && states[0] == EMPTY && states[|acts|] == h
    requires 2 in h.users && h.users[2] == User(None, true) && "own" !in h.rooms && 1 !in h.heap
    ensures Run(states', acts') && states'[0] == EMPTY
    ensures var h' := states'[|acts'|];
            && 2 in h'.users && h'.users[2].room.None? && Listed(h', 1) && h'.heap[1].users == [2] && h'.heap[1].host == 2
  {
    var h1 := Create(h, 2, "own", 8, 1);
    states', acts' := Proceed(states, acts, CreateRoom(2, "own", 8, 1, true), h1);
    PhantomHost(h, 2, "own", 8, 1, [2]);
    OwnRoom();
    ExitRoomless(h1, 2, 1, [2]);
    states', acts' := Proceed(states', acts', LeaveRoom(2, false, [2]), Exit(h1, 2, 1, [2]));
  }
}
