/**
 The server's room table and its users. Rooms are objects: `heap` holds every room ever created
 under its own reference, `rooms` lists the live ones by ID, and a user points at a room by
 reference. Each command, disconnection, timer or administrative action is one step.
 */
module Hub {
  import opened Basics
  import opened Rooms
  import RoomSafety

  datatype User = User(room: Option<nat>, monitor: bool)

  /** `pending` are rooms whose disbanding was left to a separate task. */
  datatype State = State(rooms: map<string, nat>, heap: map<nat, Room>, users: map<int, User>, pending: set<nat>)

  datatype Action =
    | Arrive(user: int)
    | CreateRoom(user: int, id: string, max: nat, ref: nat, allowed: bool)
    | JoinRoom(user: int, id: string, monitor: bool, canMonitor: bool, allowed: bool)
    | LeaveRoom(user: int, remove: bool, order: seq<int>)
    | Command(user: int, step: RoomSafety.Step, order: seq<int>)
    | Timer(room: nat, step: RoomSafety.Step, order: seq<int>)
    | Administer(room: nat, step: RoomSafety.Step)
    | DisbandListed(room: nat, order: seq<int>)
    | DisbandPending(room: nat, order: seq<int>)

  predicate Listed(h: State, ref: nat) {
    ref in h.heap && h.heap[ref].id in h.rooms && h.rooms[h.heap[ref].id] == ref
  }

  // ---- Disbanding ----

  /** Makes the participants leave one after the other, skipping whoever is no longer in a room of this ID. */
  function Evict(h: State, ref: nat, order: seq<int>): State
    requires ref in h.heap
    decreases |order|
  {
    if order == [] then h
    else
      var u := order[0];
      if u in h.users && h.users[u].room.Some? && h.users[u].room.value in h.heap && h.heap[h.users[u].room.value].id == h.heap[ref].id then
        Evict(h.(heap := h.heap[ref := Leave(h.heap[ref], u, h.users[u].monitor).0], users := h.users[u := h.users[u].(room := None)]),
              ref, order[1..])
      else Evict(h, ref, order[1..])
  }

  function DisbandRoom(h: State, ref: nat, order: seq<int>): State
    requires ref in h.heap
  {
    var r := h.heap[ref].(readyArmed := false, deadlineArmed := false);
    var h1 := Evict(h.(heap := h.heap[ref := r]), ref, order);
    h1.(rooms := h1.rooms - {r.id})
  }

  /** The room after a step, disbanded on the spot when the step says so. */
  function Settle(h: State, ref: nat, r: Room, v: Verdict, order: seq<int>): State
    requires ref in h.heap
  {
    var h1 := h.(heap := h.heap[ref := r]);
    if v.Disband? then DisbandRoom(h1, ref, order) else h1
  }

  // ---- The steps ----

  function Create(h: State, user: int, id: string, max: nat, ref: nat): State
    requires user in h.users
  {
    h.(rooms := h.rooms[id := ref], heap := h.heap[ref := Created(id, user, max)],
       users := h.users[user := h.users[user].(room := Some(ref))])
  }

  function Enter(h: State, user: int, ref: nat, monitor: bool, canMonitor: bool): State
    requires user in h.users && ref in h.heap
  {
    var (r, v) := Join(h.heap[ref], user, monitor, canMonitor);
    if v.Refused? then h else h.(heap := h.heap[ref := r], users := h.users[user := User(Some(ref), monitor)])
  }

  /** Leaving: the room is unlisted by its ID when it is to be dropped, and disbanded when the contest is over. */
  function Exit(h: State, user: int, ref: nat, order: seq<int>): State
    requires user in h.users && ref in h.heap
  {
    var (r, drop, disband) := Leave(h.heap[ref], user, h.users[user].monitor);
    var h1 := h.(heap := h.heap[ref := r], users := h.users[user := h.users[user].(room := None)]);
    var h2 := if drop then h1.(rooms := h1.rooms - {r.id}) else h1;
    if disband then DisbandRoom(h2, ref, order) else h2
  }

  /** Commands that members send while in a room. */
  predicate MemberStep(step: RoomSafety.Step, user: int) {
    match step
    case DoChooseChart(u, _) => u == user
    case DoRequestStart(u) => u == user
    case DoReady(u) => u == user
    case DoCancelReady(u) => u == user
    case DoPlayed(u, _) => u == user
    case DoAbort(u) => u == user
    case _ => false
  }

  /** `order` is a way in which the snapshot of a room may name its participants. */
  ghost predicate Participants(h: State, ref: nat, order: seq<int>)
    requires ref in h.heap
  {
    forall u :: u in order <==> u in h.heap[ref].snapshot
  }

  ghost predicate Enabled(h: State, act: Action) {
    match act
    case Arrive(user) => user !in h.users
    case CreateRoom(user, id, max, ref, _) => user in h.users && ref !in h.heap && max >= 1
    case JoinRoom(user, _, _, _, _) => user in h.users
    case LeaveRoom(user, _, order) =>
      user in h.users && (h.users[user].room.Some? ==>
        h.users[user].room.value in h.heap
        && forall u :: u in order <==> u in RemoveMember(h.heap[h.users[user].room.value], user, h.users[user].monitor).snapshot)
    case Command(user, step, order) =>
      user in h.users && h.users[user].room.Some? && h.users[user].room.value in h.heap && MemberStep(step, user)
      && Participants(h, h.users[user].room.value, order)
    case Timer(ref, step, order) =>
      Listed(h, ref) && Participants(h, ref, order)
      && ((step.ReadyFires? && h.heap[ref].readyArmed) || (step.DeadlineFires? && h.heap[ref].deadlineArmed))
    case Administer(ref, step) => Listed(h, ref) && RoomSafety.IsAdministrative(step)
    case DisbandListed(ref, order) => Listed(h, ref) && Participants(h, ref, order)
    case DisbandPending(ref, order) => ref in h.pending && ref in h.heap && Participants(h, ref, order)
  }

  ghost function Do(h: State, act: Action): State
    requires Enabled(h, act)
  {
    match act
    case Arrive(user) => h.(users := h.users[user := User(None, false)])
    case CreateRoom(user, id, max, ref, allowed) =>
      if !allowed || h.users[user].room.Some? || id in h.rooms then h else Create(h, user, id, max, ref)
    case JoinRoom(user, id, monitor, canMonitor, allowed) =>
      if !allowed || h.users[user].room.Some? || id !in h.rooms || h.rooms[id] !in h.heap then h
      else Enter(h, user, h.rooms[id], monitor, canMonitor)
    case LeaveRoom(user, remove, order) =>
      var h1 := if h.users[user].room.None? then h else Exit(h, user, h.users[user].room.value, order);
      if remove then h1.(users := h1.users - {user}) else h1
    case Command(user, step, order) =>
      var ref := h.users[user].room.value;
      var (r, v) := RoomSafety.After(h.heap[ref], step);
      if step.DoPlayed? && v.Disband? then h.(heap := h.heap[ref := r], pending := h.pending + {ref})
      else Settle(h, ref, r, v, order)
    case Timer(ref, step, order) =>
      var (r, v) := RoomSafety.After(h.heap[ref], step);
      Settle(h, ref, r, v, order)
    case Administer(ref, step) =>
      h.(heap := h.heap[ref := RoomSafety.After(h.heap[ref], step).0])
    case DisbandListed(ref, order) => DisbandRoom(h, ref, order)
    case DisbandPending(ref, order) =>
      var h1 := h.(pending := h.pending - {ref});
      if Listed(h, ref) then DisbandRoom(h1, ref, order) else h1
  }
}
