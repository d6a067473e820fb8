/** What creating, joining and disbanding a room do to the server's table, its rooms and its users. */
module HubAnswers {
  import opened Basics
  import opened Rooms
  import opened Hub
  import HubSafety
  import RoomSafety
  import RoomAnswers

  /** Every room but one and every user but one is as before. */
  ghost predicate OthersStay(h: State, h': State, ref: nat, user: int) {
    && (forall k :: k != ref ==> (k in h'.heap <==> k in h.heap) && (k in h.heap ==> h'.heap[k] == h.heap[k]))
    && (forall u :: u != user ==> (u in h'.users <==> u in h.users) && (u in h.users ==> h'.users[u] == h.users[u]))
  }

  /**
   A user in no room opens a room under an ID that is free: open, choosing a chart, with the user as its only
   member and host. Otherwise nothing changes.
   */
  lemma CreateAnswered(h: State, user: int, id: string, max: nat, ref: nat, allowed: bool)
    requires Enabled(h, CreateRoom(user, id, max, ref, allowed))
    ensures var h' := Do(h, CreateRoom(user, id, max, ref, allowed));
            if allowed && h.users[user].room.None? && id !in h.rooms then
              && h'.rooms == h.rooms[id := ref] && h'.pending == h.pending && OthersStay(h, h', ref, user)
              && user in h'.users && h'.users[user] == User(Some(ref), h.users[user].monitor)
              && ref in h'.heap && Opened(h'.heap[ref], id, max, user)
            else h' == h
  {
  }

  ghost predicate Opened(r: Room, id: string, max: nat, host: int) {
    && r.id == id && r.max == max && r.host == host && r.users == [host] && r.monitors == [] && r.snapshot == multiset{host}
    && r.phase == SelectChart && !r.locked && !r.cycle && r.contest == None && r.chart == None && r.nextHost == None
    && !r.readyArmed && !r.deadlineArmed
  }

  /** A user in no room joins a listed room that admits them, as its last member in that role. Otherwise nothing changes. */
  lemma JoinAnswered(h: State, user: int, id: string, monitor: bool, canMonitor: bool, allowed: bool)
    requires HubSafety.Inv(h) && Enabled(h, JoinRoom(user, id, monitor, canMonitor, allowed))
    ensures var h' := Do(h, JoinRoom(user, id, monitor, canMonitor, allowed));
            if allowed && h.users[user].room.None? && id in h.rooms && h.rooms[id] in h.heap
               && RoomAnswers.Admits(h.heap[h.rooms[id]], user, monitor, canMonitor) then
              var r, ref := h.heap[h.rooms[id]], h.rooms[id];
              && h'.rooms == h.rooms && h'.pending == h.pending && OthersStay(h, h', ref, user)
              && user in h'.users && h'.users[user] == User(Some(ref), monitor)
              && ref in h'.heap
              && h'.heap[ref].users == (if monitor then r.users else r.users + [user])
              && h'.heap[ref].monitors == (if monitor then r.monitors + [user] else r.monitors)
            else h' == h
  {
    if h.users[user].room.None? && id in h.rooms && h.rooms[id] in h.heap {
      Newcomer(h, user, id);
      RoomAnswers.JoinAnswered(h.heap[h.rooms[id]], user, monitor, canMonitor);
    }
  }

  lemma Newcomer(h: State, user: int, id: string)
    requires HubSafety.Inv(h) && user in h.users && h.users[user].room.None? && id in h.rooms && h.rooms[id] in h.heap
    ensures var r := h.heap[h.rooms[id]];
            RoomSafety.MembersOk(r) && user !in r.users && user !in r.monitors
  {
    assert HubSafety.MembersOk(h, h.rooms[id]);
  }

  /** A room is unlisted and everybody who was in it is out of it; nothing else changes. */
  ghost predicate Disbanded(h: State, h': State, ref: nat) {
    && ref in h.heap
    && h'.rooms == h.rooms - {h.heap[ref].id} && h'.pending == h.pending && h'.users.Keys == h.users.Keys
    && (forall u :: u in h.users ==> h'.users[u] == if h.users[u].room == Some(ref) then h.users[u].(room := None) else h.users[u])
    && (forall x :: x in h.heap && x != ref ==> x in h'.heap && h'.heap[x] == h.heap[x])
  }

  lemma DisbandAnswered(h: State, ref: nat, order: seq<int>)
    requires HubSafety.Inv(h) && Listed(h, ref) && HubSafety.AllIn(h.heap[ref], order)
    ensures Disbanded(h, DisbandRoom(h, ref, order), ref)
  {
    var r := h.heap[ref].(readyArmed := false, deadlineArmed := false);
    var h0 := h.(heap := h.heap[ref := r]);
    HubSafety.EvictEffect(h0, ref, order);
    forall u | u in h.users
      ensures HubSafety.Evicted(h0, ref, u, order) <==> h.users[u].room == Some(ref)
    {
      assert HubSafety.UserOk(h, u);
    }
  }

  lemma SettleAnswered(h: State, ref: nat, step: RoomSafety.Step, order: seq<int>)
    requires HubSafety.Inv(h) && Listed(h, ref) && Participants(h, ref, order)
    requires !step.DoJoin? && !step.DoLeave? && RoomSafety.Possible(h.heap[ref], step) && !step.ReadyFires?
    ensures var (r, v) := RoomSafety.After(h.heap[ref], step);
            var h1 := h.(heap := h.heap[ref := r]);
            if v.Disband? then Disbanded(h1, Settle(h, ref, r, v, order), ref) else Settle(h, ref, r, v, order) == h1
  {
    var (r, v) := RoomSafety.After(h.heap[ref], step);
    var h1 := h.(heap := h.heap[ref := r]);
    HubSafety.SettleKeeps(h, ref, step, order, h.pending);
    assert h1 == h.(heap := h.heap[ref := r], pending := h.pending);
    HubSafety.StepSame(h.heap[ref], step);
    if v.Disband? {
      RoomSafety.StepKeeps(h.heap[ref], step);
      HubSafety.SnapshotCovers(r, order);
      DisbandAnswered(h1, ref, order);
    }
  }

  /** A member's command changes the room as the room answers it; one that ends a contest disbands it, after a result in a task of its own. */
  lemma CommandAnswered(h: State, user: int, step: RoomSafety.Step, order: seq<int>)
    requires HubSafety.Inv(h) && Enabled(h, Command(user, step, order))
    ensures var ref := h.users[user].room.value;
            var (r, v) := RoomSafety.After(h.heap[ref], step);
            var h1, h' := h.(heap := h.heap[ref := r]), Do(h, Command(user, step, order));
            if !v.Disband? then h' == h1
            else if step.DoPlayed? then h' == h1.(pending := h.pending + {ref})
            else Disbanded(h1, h', ref)
  {
    assert HubSafety.UserOk(h, user);
    SettleAnswered(h, h.users[user].room.value, step, order);
  }

  /** That task disbands the room if it is still the one listed under its ID. */
  lemma PendingAnswered(h: State, ref: nat, order: seq<int>)
    requires HubSafety.Inv(h) && Enabled(h, DisbandPending(ref, order))
    ensures var h1, h' := h.(pending := h.pending - {ref}), Do(h, DisbandPending(ref, order));
            if Listed(h, ref) then Disbanded(h1, h', ref) else h' == h1
  {
    if Listed(h, ref) {
      var h1 := h.(pending := h.pending - {ref});
      HubSafety.PutKeeps(h, ref, h.heap[ref], h1.pending);
      assert h1 == h.(heap := h.heap[ref := h.heap[ref]], pending := h1.pending);
      HubSafety.SnapshotCovers(h.heap[ref], order);
      DisbandAnswered(h1, ref, order);
    }
  }
}
