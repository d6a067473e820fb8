/**
 The statistics processor: each match event is recorded in a database transaction that also
 claims the event's ID, and only then is the processor's cursor file moved past it.
 */
module Stats {
  import opened Basics
  import opened Envelopes
  import Inbox

  /** Which envelopes are finished matches, and which of those have a payload that decodes. */
  datatype Rules = Rules(isMatch: Envelope -> bool, decodes: Envelope -> bool)

  /** The database: matches in the order in which they were applied, and the claimed event IDs. */
  datatype Db = Db(matches: seq<Envelope>, consumed: set<string>)

  datatype State = State(db: Db, cursorFile: Option<nat>, cursor: nat)

  datatype Fault = NoFault | CommitFailed(committed: bool) | CursorFailed(replaced: bool)

  /** One transaction: claim the ID, and apply the match unless the ID was claimed before. */
  function RecordMatch(db: Db, e: Envelope): Db {
    if e.id == "" then db.(matches := db.matches + [e])
    else if e.id in db.consumed then db
    else Db(db.matches + [e], db.consumed + {e.id})
  }

  /** One envelope: transaction, then cursor file, then the cursor in memory. The flag is false on an error. */
  function Handle(rules: Rules, s: State, e: Envelope, fault: Fault): (State, bool) {
    if rules.isMatch(e) && !rules.decodes(e) then (s, false)
    else
      var db := if rules.isMatch(e) then RecordMatch(s.db, e) else s.db;
      if fault.CommitFailed? && rules.isMatch(e) then (if fault.committed then s.(db := db) else s, false)
      else if fault.CursorFailed? then
        (s.(db := db, cursorFile := if fault.replaced then Some(e.sequence) else s.cursorFile), false)
      else (State(db, Some(e.sequence), e.sequence), true)
  }

  /** Opening: the cursor file if there is one, else the inbox baseline; an error outside the inbox. */
  function Open(db: Db, cursorFile: Option<nat>, baseline: nat, last: nat): Option<State> {
    var cursor := match cursorFile case Some(n) => n case None => baseline;
    if cursor < baseline || cursor > last then None else Some(State(db, cursorFile, cursor))
  }

  /** How far the durable cursor has come, given where the Agent started. */
  function Reached(s: State, base: nat): nat {
    match s.cursorFile case Some(n) => n case None => base
  }

  // ---- What is handled ----

  /** What keeps an event from being handled: a match that does not decode or does not commit, or a cursor that is not written. */
  predicate Stuck(rules: Rules, e: Envelope, fault: Fault) {
    (rules.isMatch(e) && (!rules.decodes(e) || fault.CommitFailed?)) || fault.CursorFailed?
  }

  /** An event is handled exactly when nothing keeps it; then both cursors stand at it, and a new match is in the database. */
  lemma HandleAnswers(rules: Rules, s: State, e: Envelope, fault: Fault)
    ensures var (s', ok) := Handle(rules, s, e, fault);
            && (ok <==> !Stuck(rules, e, fault))
            && (ok ==> s'.cursor == e.sequence && s'.cursorFile == Some(e.sequence))
            && (ok && rules.isMatch(e) && e.id !in s.db.consumed ==> s'.db.matches == s.db.matches + [e])
            && (ok && !rules.isMatch(e) ==> s'.db == s.db)
            && (!ok ==> s'.cursor == s.cursor)
  {
  }

  // ---- Exactly once ----

  /** The database is the ordered fold of the matches in h[base..k]. */
  ghost predicate Folded(rules: Rules, h: seq<Envelope>, base: nat, k: nat, db: Db) {
    match db
    case Db(matches, consumed) =>
      && base <= k <= |h|
      && matches == Filter(rules.isMatch, h[base..k])
      && (forall i :: base <= i < k && rules.isMatch(h[i]) ==> h[i].id in consumed)
      && (forall id :: id in consumed ==> exists i :: base <= i < k && h[i].id == id)
  }

  /** The fold has reached the durable cursor, or is one event ahead of it. */
  ghost predicate Inv(rules: Rules, h: seq<Envelope>, base: nat, s: State) {
    match s
    case State(db, Some(r), cursor) =>
      && (Folded(rules, h, base, r, db) || Folded(rules, h, base, r + 1, db))
      && (cursor == r || (cursor + 1 == r && Folded(rules, h, base, r, db)))
    case State(db, None, cursor) =>
      && (Folded(rules, h, base, base, db) || Folded(rules, h, base, base + 1, db))
      && cursor <= base
  }

  /** The history may grow underneath. */
  lemma FoldedGrows(rules: Rules, h: seq<Envelope>, e: Envelope, base: nat, k: nat, db: Db)
    requires Folded(rules, h, base, k, db)
    ensures Folded(rules, h + [e], base, k, db)
  {
    assert (h + [e])[base..k] == h[base..k];
    forall id | id in db.consumed
      ensures exists i :: base <= i < k && (h + [e])[i].id == id
    {
      var i :| base <= i < k && h[i].id == id;
      assert (h + [e])[i].id == id;
    }
  }

  /** The ID of the event behind the fold cannot have been claimed by an earlier event. */
  lemma Unclaimed(rules: Rules, h: seq<Envelope>, base: nat, k: nat, db: Db)
    requires DistinctIds(h) && k < |h| && Folded(rules, h, base, k, db)
    ensures h[k].id !in db.consumed
  {
  }

  lemma RecordNew(rules: Rules, h: seq<Envelope>, base: nat, k: nat, db: Db)
    requires k < |h| && h[k].id != "" && rules.isMatch(h[k]) && h[k].id !in db.consumed
    requires Folded(rules, h, base, k, db)
    ensures Folded(rules, h, base, k + 1, RecordMatch(db, h[k]))
  {
    assert h[base..k + 1] == h[base..k] + [h[k]];
    FilterSnoc(rules.isMatch, h[base..k], h[k]);
    forall id | id in db.consumed + {h[k].id}
      ensures exists i :: base <= i < k + 1 && h[i].id == id
    {
      if id in db.consumed {
        var i :| base <= i < k && h[i].id == id;
      } else {
        assert h[k].id == id;
      }
    }
  }

  lemma SkipOther(rules: Rules, h: seq<Envelope>, base: nat, k: nat, db: Db)
    requires k < |h| && !rules.isMatch(h[k])
    requires Folded(rules, h, base, k, db)
    ensures Folded(rules, h, base, k + 1, db)
  {
    assert h[base..k + 1] == h[base..k] + [h[k]];
    FilterSnoc(rules.isMatch, h[base..k], h[k]);
    forall id | id in db.consumed
      ensures exists i :: base <= i < k + 1 && h[i].id == id
    {
      var i :| base <= i < k && h[i].id == id;
    }
  }

  /** The event at position k: applied when the fold stops before it, skipped when the fold includes it. */
  lemma RecordFolds(rules: Rules, h: seq<Envelope>, base: nat, k: nat, db: Db)
    requires DistinctIds(h) && base <= k < |h| && h[k].id != ""
    requires Folded(rules, h, base, k, db) || Folded(rules, h, base, k + 1, db)
    ensures Folded(rules, h, base, k + 1, if rules.isMatch(h[k]) then RecordMatch(db, h[k]) else db)
  {
    if Folded(rules, h, base, k, db) {
      if rules.isMatch(h[k]) {
        Unclaimed(rules, h, base, k, db);
        RecordNew(rules, h, base, k, db);
      } else {
        SkipOther(rules, h, base, k, db);
      }
    }
  }

  /** Handling the next event, with whatever failure, keeps the database equal to the fold. */
  lemma HandleKeeps(rules: Rules, h: seq<Envelope>, base: nat, s: State, fault: Fault)
    requires DistinctIds(h) && Inv(rules, h, base, s)
    requires base <= s.cursor < |h| && h[s.cursor].id != "" && h[s.cursor].sequence == s.cursor + 1
    ensures var (s', ok) := Handle(rules, s, h[s.cursor], fault);
            && Inv(rules, h, base, s')
            && Reached(s, base) <= Reached(s', base) <= Max(Reached(s, base), s.cursor + 1)
            && s'.cursor == (if ok then s.cursor + 1 else s.cursor)
            && (ok ==> Reached(s', base) == s.cursor + 1)
  {
    var k := s.cursor;
    FoldedAtCursor(rules, h, base, s);
    RecordFolds(rules, h, base, k, s.db);
    FoldedOn(rules, h, base, s, if rules.isMatch(h[k]) then RecordMatch(s.db, h[k]) else s.db);
  }

  lemma FoldedAtCursor(rules: Rules, h: seq<Envelope>, base: nat, s: State)
    requires Inv(rules, h, base, s) && base <= s.cursor
    ensures Folded(rules, h, base, s.cursor, s.db) || Folded(rules, h, base, s.cursor + 1, s.db)
    ensures s.cursor <= Reached(s, base) <= s.cursor + 1
  {
  }

  /** Once the fold includes the event at the cursor, the state is in order whichever of cursor file and cursor have moved. */
  lemma FoldedOn(rules: Rules, h: seq<Envelope>, base: nat, s: State, db: Db)
    requires base <= s.cursor && s.cursor <= Reached(s, base) <= s.cursor + 1 && Folded(rules, h, base, s.cursor + 1, db)
    ensures Inv(rules, h, base, State(db, s.cursorFile, s.cursor))
    ensures Inv(rules, h, base, State(db, Some(s.cursor + 1), s.cursor + 1))
    ensures Inv(rules, h, base, State(db, Some(s.cursor + 1), s.cursor))
  {
  }

  // ---- The processor ----

  /** The loop over the events one read returned, from position k on; the failure, if any, strikes at position `at`. */
  function HandleFrom(rules: Rules, s: State, events: seq<Envelope>, k: nat, at: int, fault: Fault): (State, nat, bool)
    requires k <= |events|
    decreases |events| - k
  {
    if k == |events| then (s, k, true)
    else
      var (s', ok) := Handle(rules, s, events[k], if at == k then fault else NoFault);
      if ok then HandleFrom(rules, s', events, k + 1, at, fault) else (s', k, false)
  }

  /** The loop stops at the first event that something keeps, and otherwise handles them all; its cursor is the last one handled. */
  lemma {:induction false} HandleFromAnswers(rules: Rules, s: State, events: seq<Envelope>, k: nat, at: int, fault: Fault)
    requires k <= |events|
    ensures var (s', n, ok) := HandleFrom(rules, s, events, k, at, fault);
            && k <= n <= |events| && (ok <==> n == |events|)
            && (!ok ==> Stuck(rules, events[n], if at == n then fault else NoFault))
            && s'.cursor == (if n == k then s.cursor else events[n - 1].sequence)
    decreases |events| - k
  {
    if k < |events| {
      var f := if at == k then fault else NoFault;
      HandleAnswers(rules, s, events[k], f);
      var (s1, ok) := Handle(rules, s, events[k], f);
      if ok {
        HandleFromAnswers(rules, s1, events, k + 1, at, fault);
      }
    }
  }

  class Processor {
    const rules: Rules
    const inbox: Inbox.Store
    var db: Db
    var cursorFile: Option<nat>
    var cursor: nat

    function View(): State
      reads this
    {
      State(db, cursorFile, cursor)
    }

    constructor (rules: Rules, inbox: Inbox.Store, s: State)
      ensures this.rules == rules && this.inbox == inbox && View() == s
    {
      this.rules, this.inbox := rules, inbox;
      db, cursorFile, cursor := s.db, s.cursorFile, s.cursor;
    }

    method HandleEvent(e: Envelope, fault: Fault) returns (ok: bool)
      modifies this
      ensures (View(), ok) == Handle(rules, old(View()), e, fault)
    {
      if rules.isMatch(e) {
        if !rules.decodes(e) { return false; }
        if fault.CommitFailed? {
          if fault.committed { db := RecordMatch(db, e); }
          return false;
        }
        db := RecordMatch(db, e);
      }
      if fault.CursorFailed? {
        if fault.replaced { cursorFile := Some(e.sequence); }
        return false;
      }
      cursorFile := Some(e.sequence);
      cursor := e.sequence;
      return true;
    }

    /** Reads the next events behind the cursor and handles them in order, stopping at the first error. */
    method Process(limit: int, at: int, fault: Fault) returns (processed: nat, ok: bool)
      modifies this
      ensures match Inbox.ReadAfter(inbox.coding, inbox.View(), inbox.disk, old(cursor), limit)
              case None => processed == 0 && !ok && View() == old(View())
              case Some(events) => (View(), processed, ok) == HandleFrom(rules, old(View()), events, 0, at, fault)
    {
      var read := inbox.Read(cursor, limit);
      if read.None? { return 0, false; }
      var events := read.value;
      ghost var goal := HandleFrom(rules, View(), events, 0, at, fault);
      processed := 0;
      while processed < |events|
        invariant 0 <= processed <= |events|
        invariant HandleFrom(rules, View(), events, processed, at, fault) == goal
      {
        ok := HandleEvent(events[processed], if at == processed then fault else NoFault);
        if !ok { return; }
        processed := processed + 1;
      }
      ok := true;
    }
  }
}
