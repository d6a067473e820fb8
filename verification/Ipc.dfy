/**
 The server's side of the Agent connection: one consumer at a time holds a lease that every
 accepted request renews, and only sequences that were delivered may be acknowledged.
 */
module Ipc {
  import opened Basics
  import opened RecordLog
  import opened Envelopes
  import Outbox
  import OutboxSafety
  import OutboxAnswers

  /** Nanoseconds. */
  const CONSUMER_TTL := 30 * 1_000_000_000
  const MAX_CONSUMER_ID := 128
  const MAX_EVENT_BATCH := 256

  datatype Session = Session(consumer: string, lastSeen: int, lastDelivered: nat)

  // ---- The lease ----

  /** `trim` stands for the removal of surrounding white space. */
  function Handshake(trim: string -> string, s: Session, now: int, id: string, acked: nat): (Session, bool) {
    if trim(id) == "" || |id| > MAX_CONSUMER_ID then (s, false)
    else if s.consumer != "" && s.consumer != id && now - s.lastSeen <= CONSUMER_TTL then (s, false)
    else (Session(id, now, acked), true)
  }

  function Touch(trim: string -> string, s: Session, now: int, header: string): (Session, bool) {
    var consumer := trim(header);
    if consumer == "" || s.consumer == "" || consumer != s.consumer || now - s.lastSeen > CONSUMER_TTL then (s, false)
    else (s.(lastSeen := now), true)
  }

  // ---- What is delivered and acknowledged ----

  /** The session after a batch was served. */
  function Delivered(s: Session, batch: Outbox.EventsResult): Session {
    match batch
    case Batch(events, acked, _) => s.(lastDelivered := if events == [] then acked else events[|events| - 1].sequence)
    case EventsRefused(_, _) => s
  }

  class Service {
    const trim: string -> string
    const outbox: Outbox.Store
    var consumerID: string
    var lastSeen: int
    var lastDelivered: nat

    function View(): Session
      reads this
    {
      Session(consumerID, lastSeen, lastDelivered)
    }

    constructor (trim: string -> string, outbox: Outbox.Store)
      ensures this.trim == trim && this.outbox == outbox && View() == Session("", 0, 0)
    {
      this.trim, this.outbox := trim, outbox;
      consumerID, lastSeen, lastDelivered := "", 0, 0;
    }

    method HandleHandshake(now: int, id: string) returns (ok: bool, acked: nat)
      modifies this
      ensures (View(), ok) == Handshake(trim, old(View()), now, id, outbox.acked)
      ensures ok ==> acked == outbox.acked
    {
      acked := 0;
      if trim(id) == "" || |id| > MAX_CONSUMER_ID { return false, acked; }
      if consumerID != "" && consumerID != id && now - lastSeen <= CONSUMER_TTL { return false, acked; }
      acked := outbox.acked;
      consumerID, lastSeen, lastDelivered := id, now, acked;
      ok := true;
    }

    method TouchConsumer(now: int, header: string) returns (ok: bool)
      modifies this
      ensures (View(), ok) == Touch(trim, old(View()), now, header)
    {
      var consumer := trim(header);
      if consumer == "" || consumerID == "" || consumer != consumerID || now - lastSeen > CONSUMER_TTL { return false; }
      lastSeen := now;
      ok := true;
    }

    /** Serves the unacknowledged tail and notes how far it went. */
    method HandleEvents(now: int, header: string, after: nat, limit: int) returns (r: Option<Outbox.EventsResult>)
      modifies this
      ensures var (s, touched) := Touch(trim, old(View()), now, header);
              if !touched || limit < 1 || limit > MAX_EVENT_BATCH then r == None && View() == s
              else r == Some(Outbox.Events(outbox.View(), after, limit)) && View() == Delivered(s, r.value)
    {
      var touched := TouchConsumer(now, header);
      if !touched || limit < 1 || limit > MAX_EVENT_BATCH { return None; }
      var batch := outbox.EventsAfter(after, limit);
      if batch.Batch? {
        lastDelivered := if |batch.events| > 0 then batch.events[|batch.events| - 1].sequence else batch.acked;
      }
      return Some(batch);
    }

    /** None when the request is refused before it reaches the outbox. */
    method HandleAck(now: int, header: string, sequence: nat, fault: Outbox.AckFault) returns (r: Option<Outbox.AckResult>)
      modifies this, outbox
      ensures var (s, touched) := Touch(trim, old(View()), now, header);
              && View() == s
              && r.Some? == (touched && sequence <= s.lastDelivered)
      ensures r.None? ==> outbox.View() == old(outbox.View()) && outbox.disk == old(outbox.disk)
      ensures r.Some? ==> (outbox.View(), outbox.disk, r.value) == Outbox.Ack(outbox.coding, old(outbox.View()), old(outbox.disk), sequence, fault)
    {
      var touched := TouchConsumer(now, header);
      if !touched || sequence > lastDelivered { return None; }
      var result := outbox.AckUpTo(sequence, fault);
      r := Some(result);
    }
  }

  // ---- The lease is exclusive ----

  datatype Request = Hello(id: string, acked: nat) | Call(header: string)

  /** One request at the lease: the new session and, when accepted, the consumer it was accepted for. */
  function Serve(trim: string -> string, s: Session, now: int, r: Request): (Session, Option<string>) {
    match r
    case Hello(id, acked) =>
      var (s', ok) := Handshake(trim, s, now, id, acked);
      (s', if ok then Some(id) else None)
    case Call(header) =>
      var (s', ok) := Touch(trim, s, now, header);
      (s', if ok then Some(trim(header)) else None)
  }

  /** A run of requests in the order in which they take the lock, at times that never go back. */
  datatype Run = Run(sessions: seq<Session>, times: seq<int>, requests: seq<Request>)

  ghost predicate Valid(trim: string -> string, run: Run) {
    match run
    case Run(sessions, times, requests) =>
      && trim("") == ""
      && |sessions| == |requests| + 1 == |times| + 1
      && (forall i, j :: 0 <= i <= j < |times| ==> times[i] <= times[j])
      && (forall i :: 0 <= i < |requests| ==> sessions[i + 1] == Serve(trim, sessions[i], times[i], requests[i]).0)
  }

  function Accepted(trim: string -> string, run: Run, i: nat): Option<string>
    requires i < |run.sessions| && i < |run.times| && i < |run.requests|
  {
    Serve(trim, run.sessions[i], run.times[i], run.requests[i]).1
  }

  /** Nothing is accepted strictly between p and q. */
  ghost predicate Silent(trim: string -> string, run: Run, p: nat, q: nat)
    requires q <= |run.sessions| && q <= |run.times| && q <= |run.requests|
  {
    forall k :: p < k < q ==> Accepted(trim, run, k) == None
  }

  /** While nothing is accepted, the session stays as it was. */
  lemma {:induction false} SilentSession(trim: string -> string, run: Run, p: nat, q: nat)
    requires Valid(trim, run) && p < q <= |run.requests| && Silent(trim, run, p, q)
    ensures run.sessions[q] == run.sessions[p + 1]
    decreases q
  {
    if p + 1 < q {
      SilentSession(trim, run, p, q - 1);
      assert Accepted(trim, run, q - 1) == None;
    }
  }

  /** The next accepted request after an accepted one comes from the same consumer, or more than the TTL later. */
  lemma NextAccepted(trim: string -> string, run: Run, p: nat, q: nat)
    requires Valid(trim, run) && p < q < |run.requests| && Silent(trim, run, p, q)
    requires Accepted(trim, run, p).Some? && Accepted(trim, run, q).Some?
    ensures Accepted(trim, run, q) == Accepted(trim, run, p) || run.times[q] - run.times[p] > CONSUMER_TTL
  {
    SilentSession(trim, run, p, q);
    assert run.sessions[p + 1] == Serve(trim, run.sessions[p], run.times[p], run.requests[p]).0;
  }

  /**
   After an accepted request the next one is accepted exactly so: a handshake with a proper ID if it is the same
   consumer's or comes more than the TTL later, any other request if it is the same consumer's within the TTL.
   */
  lemma AcceptedExactly(trim: string -> string, run: Run, p: nat, q: nat)
    requires Valid(trim, run) && p < q < |run.requests| && Silent(trim, run, p, q) && Accepted(trim, run, p).Some?
    ensures var last, gap := Accepted(trim, run, p).value, run.times[q] - run.times[p];
            match run.requests[q]
            case Hello(id, _) =>
              Accepted(trim, run, q) == if trim(id) != "" && |id| <= 128 && (id == last || gap > CONSUMER_TTL) then Some(id) else None
            case Call(header) =>
              Accepted(trim, run, q) == if trim(header) == last && gap <= CONSUMER_TTL then Some(last) else None
  {
    SilentSession(trim, run, p, q);
    assert run.sessions[p + 1] == Serve(trim, run.sessions[p], run.times[p], run.requests[p]).0;
  }

  lemma {:induction false} NothingYet(trim: string -> string, run: Run, q: nat)
    requires Valid(trim, run) && q <= |run.requests| && forall k :: 0 <= k < q ==> Accepted(trim, run, k) == None
    ensures run.sessions[q] == run.sessions[0]
    decreases q
  {
    if q > 0 {
      NothingYet(trim, run, q - 1);
      assert Accepted(trim, run, q - 1) == None;
    }
  }

  /** As long as nothing has been accepted, a handshake with a proper ID is, and nothing else. */
  lemma FirstAccepted(trim: string -> string, run: Run, q: nat)
    requires Valid(trim, run) && q < |run.requests| && 0 < |run.sessions| && run.sessions[0].consumer == ""
    requires forall k :: 0 <= k < q ==> Accepted(trim, run, k) == None
    ensures match run.requests[q]
            case Hello(id, _) => Accepted(trim, run, q) == if trim(id) != "" && |id| <= 128 then Some(id) else None
            case Call(_) => Accepted(trim, run, q) == None
  {
    NothingYet(trim, run, q);
  }

  /**
   Requests of two different consumers are never both accepted without a silent gap longer than
   the TTL between two consecutive accepted requests in between.
   */
  lemma {:induction false} Exclusive(trim: string -> string, run: Run, i: nat, j: nat) returns (p: nat, q: nat)
    requires Valid(trim, run) && i < j < |run.requests|
    requires Accepted(trim, run, i).Some? && Accepted(trim, run, j).Some? && Accepted(trim, run, i) != Accepted(trim, run, j)
    ensures i <= p < q <= j && Silent(trim, run, p, q)
    ensures Accepted(trim, run, p).Some? && Accepted(trim, run, q).Some?
    ensures run.times[q] - run.times[p] > CONSUMER_TTL
    decreases j
  {
    p := j - 1;
    while Accepted(trim, run, p) == None
      invariant i <= p < j && Silent(trim, run, p, j)
      decreases p
    {
      p := p - 1;
    }
    if Accepted(trim, run, p) == Accepted(trim, run, j) {
      p, q := Exclusive(trim, run, i, p);
    } else {
      NextAccepted(trim, run, p, j);
      q := j;
    }
  }

  // ---- The delivery window, handlers as single steps ----

  datatype Conn = Conn(session: Session, mem: Outbox.Mem, disk: Outbox.Disk, trace: OutboxSafety.Trace)

  datatype Step =
    | Connect(now: int, id: string)
    | Fetch(now: int, header: string, after: nat, limit: int)
    | Confirm(now: int, header: string, sequence: nat, ackFault: Outbox.AckFault)
    | Append(id: string, kind: string, at: int, payload: seq<Byte>, priority: Outbox.Priority, writeFault: WriteFault)

  ghost function Do(c: Coding<Envelope>, max: nat, trim: string -> string, x: Conn, step: Step): Conn {
    match step
    case Connect(now, id) => x.(session := Handshake(trim, x.session, now, id, x.mem.acked).0)
    case Fetch(now, header, after, limit) =>
      var (s, ok) := Touch(trim, x.session, now, header);
      x.(session := if !ok || limit < 1 || limit > MAX_EVENT_BATCH then s else Delivered(s, Outbox.Events(x.mem, after, limit)))
    case Confirm(now, header, sequence, fault) =>
      var (s, ok) := Touch(trim, x.session, now, header);
      if !ok || sequence > s.lastDelivered then x.(session := s)
      else
        var (m, d, _) := Outbox.Ack(c, x.mem, x.disk, sequence, fault);
        Conn(s, m, d, OutboxSafety.AckTrace(x.trace, x.mem, m, sequence, fault))
    case Append(id, kind, at, payload, p, fault) =>
      var (m, d, r) := Outbox.Append(c, max, x.mem, x.disk, id, kind, at, payload, p, fault);
      Conn(x.session, m, d, OutboxSafety.AppendTrace(x.trace, x.mem, id, kind, at, payload, p, r))
  }

  /** From the handshake on, what is acknowledged was delivered and what was delivered exists. */
  ghost predicate Window(c: Coding<Envelope>, max: nat, x: Conn) {
    match x
    case Conn(s, m, d, t) =>
      && OutboxSafety.Inv(c, max, t, m, d)
      && (s.consumer != "" ==> m.acked <= s.lastDelivered <= m.latest)
  }

  lemma FetchKeeps(c: Coding<Envelope>, max: nat, x: Conn, s: Session, after: nat, limit: int)
    requires Window(c, max, x) && (s.consumer != "" ==> x.mem.acked <= s.lastDelivered <= x.mem.latest)
    ensures Window(c, max, x.(session := Delivered(s, Outbox.Events(x.mem, after, limit))))
  {
  }

  lemma ConfirmKeeps(c: Coding<Envelope>, max: nat, x: Conn, sequence: nat, fault: Outbox.AckFault)
    requires Window(c, max, x) && sequence <= x.session.lastDelivered
    ensures var (m, d, _) := Outbox.Ack(c, x.mem, x.disk, sequence, fault);
            Window(c, max, Conn(x.session, m, d, OutboxSafety.AckTrace(x.trace, x.mem, m, sequence, fault)))
  {
    OutboxSafety.AckKeeps(c, max, x.trace, x.mem, x.disk, sequence, fault);
  }

  /** Every handler, run as one step, keeps the window; so does the server appending. */
  lemma WindowKept(c: Coding<Envelope>, max: nat, trim: string -> string, x: Conn, step: Step)
    requires Window(c, max, x) && (step.Append? ==> step.id != "")
    ensures Window(c, max, Do(c, max, trim, x, step))
  {
    match step
    case Connect(now, id) =>
    case Fetch(now, header, after, limit) =>
      FetchKeeps(c, max, x, Touch(trim, x.session, now, header).0, after, limit);
    case Confirm(now, header, sequence, fault) =>
      var (s, ok) := Touch(trim, x.session, now, header);
      if ok && sequence <= s.lastDelivered {
        ConfirmKeeps(c, max, x.(session := s), sequence, fault);
      }
    case Append(id, kind, at, payload, p, fault) =>
      OutboxSafety.AppendKeeps(c, max, x.trace, x.mem, x.disk, id, kind, at, payload, p, fault);
  }

  lemma ServedUpTo(c: Coding<Envelope>, max: nat, x: Conn, limit: int, n: nat)
    requires Window(c, max, x) && limit >= 1 && x.mem.acked < x.mem.latest && n == Min(x.mem.acked + limit, x.mem.latest)
    ensures Delivered(x.session, Outbox.Events(x.mem, x.mem.acked, limit)) == x.session.(lastDelivered := n)
  {
    OutboxAnswers.EventsServed(c, max, x.trace, x.mem, x.disk, x.mem.acked, limit);
    assert x.trace.hist[x.mem.acked..n][n - x.mem.acked - 1] == x.trace.hist[n - 1];
  }

  /**
   What was fetched can be acknowledged: the batch ends at the requested number of events or at the latest one,
   and its last sequence is taken when the same consumer confirms it within the TTL.
   */
  lemma FetchedConfirms(c: Coding<Envelope>, max: nat, trim: string -> string, x: Conn, t1: int, t2: int, header: string, limit: int, n: nat)
    requires Window(c, max, x) && trim(header) == x.session.consumer != ""
    requires t1 - x.session.lastSeen <= CONSUMER_TTL && t2 - t1 <= CONSUMER_TTL
    requires 1 <= limit <= 256 && x.mem.acked < x.mem.latest && n == Min(x.mem.acked + limit, x.mem.latest)
    ensures var x1 := Do(c, max, trim, x, Fetch(t1, header, x.mem.acked, limit));
            var x2 := Do(c, max, trim, x1, Confirm(t2, header, n, Outbox.NoAckFault));
            && x1 == x.(session := Session(x.session.consumer, t1, n))
            && x2.session == Session(x.session.consumer, t2, n) && x2.mem.acked == n && x2.disk.checkpoint == n
  {
    ServedUpTo(c, max, x, limit, n);
    OutboxAnswers.AckTakes(c, max, x.trace, x.mem, x.disk, n, Outbox.NoAckFault);
  }

  // ---- The delivery window, handlers interleaved between their locks ----

  /**
   Two handlers release the lock in the middle: fetching reads the outbox and later notes how far
   it went; confirming compares with what was delivered and later tells the outbox. `fetched` and
   `checked` hold the handlers in between, `highest` the largest sequence ever noted as delivered.
   */
  datatype Race = Race(acked: nat, latest: nat, delivered: nat, fetched: multiset<nat>, checked: multiset<nat>, highest: nat)

  datatype Move =
    | Greet
    | Read(limit: nat)
    | Note(end: nat)
    | Check(sequence: nat)
    | Apply(sequence: nat)
    | Fail(sequence: nat)
    | Publish

  predicate CanMove(r: Race, m: Move) {
    match m
    case Note(end) => end in r.fetched
    case Apply(sequence) => sequence in r.checked
    case Fail(sequence) => sequence in r.checked
    case Check(sequence) => sequence <= r.delivered
    case Read(limit) => limit >= 1
    case _ => true
  }

  function MoveOn(r: Race, m: Move): Race {
    match m
    case Greet => r.(delivered := r.acked, highest := Max(r.highest, r.acked))
    case Read(limit) => r.(fetched := r.fetched + multiset{Min(r.acked + limit, r.latest)})
    case Note(end) => r.(delivered := end, fetched := r.fetched - multiset{end}, highest := Max(r.highest, end))
    case Check(sequence) => r.(checked := r.checked + multiset{sequence})
    case Apply(sequence) => r.(acked := if r.acked < sequence <= r.latest then sequence else r.acked, checked := r.checked - multiset{sequence})
    case Fail(sequence) => r.(checked := r.checked - multiset{sequence})
    case Publish => r.(latest := r.latest + 1)
  }

  ghost predicate RaceInv(r: Race) {
    && r.acked <= r.highest <= r.latest && r.delivered <= r.highest
    && (forall end :: end in r.fetched ==> end <= r.latest)
    && (forall sequence :: sequence in r.checked ==> sequence <= r.highest)
  }

  ghost predicate Moves(r: Race, m: Move, r': Race) {
    match r
    case Race(_, _, _, _, _, _) => CanMove(r, m) && r' == MoveOn(r, m)
  }

  ghost predicate RaceRun(states: seq<Race>, moves: seq<Move>) {
    |states| == |moves| + 1 && forall i :: 0 <= i < |moves| ==> Moves(states[i], moves[i], states[i + 1])
  }

  lemma MoveKeeps(r: Race, m: Move, r': Race)
    requires Moves(r, m, r') && RaceInv(r)
    ensures RaceInv(r')
  {
  }

  /** Over every interleaving nothing is acknowledged that was never delivered, and nothing delivered that does not exist. */
  lemma {:induction false} NeverAcksUndelivered(states: seq<Race>, moves: seq<Move>, i: nat)
    requires RaceRun(states, moves) && RaceInv(states[0]) && i < |states|
    ensures RaceInv(states[i])
    ensures states[i].acked <= states[i].highest <= states[i].latest
    decreases i
  {
    if i > 0 {
      NeverAcksUndelivered(states, moves, i - 1);
      MoveKeeps(states[i - 1], moves[i - 1], states[i]);
    }
  }

  // ---- When the window is kept ----

  /** The window itself. */
  predicate Held(r: Race) {
    r.acked <= r.delivered
  }

  /** Nothing is in flight between two locks. */
  ghost predicate Quiet(r: Race) {
    RaceInv(r) && Held(r) && r.fetched == multiset{} && r.checked == multiset{}
  }

  /** Moves that set the delivered sequence, up or down. */
  predicate Sets(m: Move) {
    m.Greet? || m.Note?
  }

  predicate AppliesBeyond(m: Move, end: nat) {
    m.Apply? && m.sequence > end
  }

  /** Move i reads a batch that move j notes, and in between an acknowledgement beyond the batch is applied. */
  ghost predicate Overtaken(states: seq<Race>, moves: seq<Move>, i: nat, j: nat)
    requires i < j < |moves| < |states|
  {
    && moves[i].Read? && moves[j] == Note(Min(states[i].acked + moves[i].limit, states[i].latest))
    && exists k :: i < k < j && AppliesBeyond(moves[k], moves[j].end)
  }

  /** Move k is the last before j that sets the delivered sequence, and sets it below the given one. */
  ghost predicate Lowers(states: seq<Race>, moves: seq<Move>, k: nat, j: nat, sequence: nat)
    requires k < j < |moves| < |states|
  {
    Sets(moves[k]) && states[k + 1].delivered < sequence && forall x :: k < x < j ==> !Sets(moves[x])
  }

  /** Move i checks an acknowledgement that move j applies, and in between a handshake or a shorter batch takes the delivered sequence below it. */
  ghost predicate Undercut(states: seq<Race>, moves: seq<Move>, i: nat, j: nat)
    requires i < j < |moves| < |states|
  {
    && moves[i].Check? && moves[j] == Apply(moves[i].sequence)
    && exists k :: i < k < j && Lowers(states, moves, k, j, moves[i].sequence)
  }

  /** What a move does to the two sequences. */
  lemma MoveSets(r: Race, m: Move, r': Race)
    requires Moves(r, m, r')
    ensures r.acked <= r'.acked && (r.acked < r'.acked ==> m.Apply? && m.sequence == r'.acked)
    ensures !Sets(m) ==> r'.delivered == r.delivered
    ensures m.Note? ==> r'.delivered == m.end
    ensures m.Apply? && m.sequence <= r.latest ==> m.sequence <= r'.acked
  {
  }

  lemma MoveHolds(r: Race, m: Move, r': Race)
    requires Moves(r, m, r') && Held(r)
    requires (m.Note? ==> r.acked <= m.end) && (m.Apply? ==> m.sequence <= r.delivered)
    ensures Held(r')
  {
  }

  ghost predicate Orderly(states: seq<Race>, moves: seq<Move>, n: nat)
    requires n <= |moves| < |states|
  {
    forall i, j :: 0 <= i < j < n ==> !Overtaken(states, moves, i, j) && !Undercut(states, moves, i, j)
  }

  /** A batch waiting to be noted was read by an earlier move. */
  lemma {:induction false} WhoRead(states: seq<Race>, moves: seq<Move>, n: nat, end: nat) returns (i: nat)
    requires RaceRun(states, moves) && Quiet(states[0]) && n <= |moves| && end in states[n].fetched
    ensures i < n && moves[i].Read? && end == Min(states[i].acked + moves[i].limit, states[i].latest)
    decreases n
  {
    assert Moves(states[n - 1], moves[n - 1], states[n]);
    if end in states[n - 1].fetched {
      i := WhoRead(states, moves, n - 1, end);
    } else {
      i := n - 1;
    }
  }

  /** An acknowledgement waiting to be applied was checked by an earlier move, when as much had been delivered. */
  lemma {:induction false} WhoChecked(states: seq<Race>, moves: seq<Move>, n: nat, sequence: nat) returns (i: nat)
    requires RaceRun(states, moves) && Quiet(states[0]) && n <= |moves| && sequence in states[n].checked
    ensures i < n && moves[i] == Check(sequence) && sequence <= states[i].delivered
    decreases n
  {
    assert Moves(states[n - 1], moves[n - 1], states[n]);
    if sequence in states[n - 1].checked {
      i := WhoChecked(states, moves, n - 1, sequence);
    } else {
      i := n - 1;
    }
  }

  lemma {:induction false} WhoApplied(states: seq<Race>, moves: seq<Move>, i: nat, n: nat, end: nat) returns (k: nat)
    requires RaceRun(states, moves) && i <= n <= |moves| && states[i].acked <= end < states[n].acked
    ensures i <= k < n && AppliesBeyond(moves[k], end)
    decreases n
  {
    MoveSets(states[n - 1], moves[n - 1], states[n]);
    if end < states[n - 1].acked {
      k := WhoApplied(states, moves, i, n - 1, end);
    } else {
      k := n - 1;
    }
  }

  lemma {:induction false} WhoSet(states: seq<Race>, moves: seq<Move>, i: nat, n: nat, sequence: nat) returns (k: nat)
    requires RaceRun(states, moves) && i <= n < |moves| && states[n].delivered < sequence <= states[i].delivered
    ensures i <= k < n && Lowers(states, moves, k, n, sequence)
    decreases n
  {
    MoveSets(states[n - 1], moves[n - 1], states[n]);
    if Sets(moves[n - 1]) {
      k := n - 1;
    } else {
      k := WhoSet(states, moves, i, n - 1, sequence);
    }
  }

  lemma {:induction false} AckedGrows(states: seq<Race>, moves: seq<Move>, i: nat, n: nat)
    requires RaceRun(states, moves) && i <= n <= |moves|
    ensures states[i].acked <= states[n].acked
    decreases n
  {
    if i < n {
      AckedGrows(states, moves, i, n - 1);
      MoveSets(states[n - 1], moves[n - 1], states[n]);
    }
  }

  lemma {:induction false} DeliveredStays(states: seq<Race>, moves: seq<Move>, k: nat, n: nat)
    requires RaceRun(states, moves) && k <= n <= |moves| && forall x :: k <= x < n ==> !Sets(moves[x])
    ensures states[k].delivered == states[n].delivered
    decreases n
  {
    if k < n {
      DeliveredStays(states, moves, k, n - 1);
      MoveSets(states[n - 1], moves[n - 1], states[n]);
    }
  }

  /** A note that finds more acknowledged than its batch was overtaken. */
  lemma NoteLate(states: seq<Race>, moves: seq<Move>, n: nat) returns (i: nat)
    requires RaceRun(states, moves) && Quiet(states[0]) && n < |moves| && moves[n].Note? && moves[n].end < states[n].acked
    ensures i < n && Overtaken(states, moves, i, n)
  {
    assert Moves(states[n], moves[n], states[n + 1]);
    i := WhoRead(states, moves, n, moves[n].end);
    NeverAcksUndelivered(states, moves, i);
    var k := WhoApplied(states, moves, i, n, moves[n].end);
  }

  /** An application that finds its sequence no longer delivered was undercut. */
  lemma ApplyLate(states: seq<Race>, moves: seq<Move>, n: nat) returns (i: nat)
    requires RaceRun(states, moves) && Quiet(states[0]) && n < |moves| && moves[n].Apply? && states[n].delivered < moves[n].sequence
    ensures i < n && Undercut(states, moves, i, n)
  {
    assert Moves(states[n], moves[n], states[n + 1]);
    i := WhoChecked(states, moves, n, moves[n].sequence);
    var k := WhoSet(states, moves, i, n, moves[n].sequence);
  }

  lemma {:induction false} OrderlyHolds(states: seq<Race>, moves: seq<Move>, n: nat)
    requires RaceRun(states, moves) && Quiet(states[0]) && n <= |moves| && Orderly(states, moves, n)
    ensures Held(states[n])
    decreases n
  {
    if n > 0 {
      OrderlyHolds(states, moves, n - 1);
      if moves[n - 1].Note? && moves[n - 1].end < states[n - 1].acked { var i := NoteLate(states, moves, n - 1); }
      if moves[n - 1].Apply? && states[n - 1].delivered < moves[n - 1].sequence { var i := ApplyLate(states, moves, n - 1); }
      MoveHolds(states[n - 1], moves[n - 1], states[n]);
    }
  }

  /** What is applied was checked against something that exists. */
  lemma AppliedExists(states: seq<Race>, moves: seq<Move>, k: nat)
    requires RaceRun(states, moves) && Quiet(states[0]) && k < |moves| && moves[k].Apply?
    ensures moves[k].sequence <= states[k].latest
  {
    NeverAcksUndelivered(states, moves, k);
    assert Moves(states[k], moves[k], states[k + 1]);
  }

  lemma OvertakenFails(states: seq<Race>, moves: seq<Move>, i: nat, j: nat)
    requires RaceRun(states, moves) && Quiet(states[0]) && i < j < |moves| && Overtaken(states, moves, i, j)
    ensures !Held(states[j + 1])
  {
    var k :| i < k < j && AppliesBeyond(moves[k], moves[j].end);
    AppliedExists(states, moves, k);
    MoveSets(states[k], moves[k], states[k + 1]);
    AckedGrows(states, moves, k + 1, j + 1);
    MoveSets(states[j], moves[j], states[j + 1]);
  }

  lemma UndercutFails(states: seq<Race>, moves: seq<Move>, i: nat, j: nat)
    requires RaceRun(states, moves) && Quiet(states[0]) && i < j < |moves| && Undercut(states, moves, i, j)
    ensures !Held(states[j + 1])
  {
    var k :| i < k < j && Lowers(states, moves, k, j, moves[i].sequence);
    DeliveredStays(states, moves, k + 1, j);
    AppliedExists(states, moves, j);
    MoveSets(states[j], moves[j], states[j + 1]);
  }

  /**
   Over every interleaving, the window holds throughout exactly when no batch is overtaken by an
   acknowledgement between its reading and its noting, and no acknowledgement is undercut by a
   handshake or a shorter batch between its check and its application.
   */
  lemma WindowExactly(states: seq<Race>, moves: seq<Move>)
    requires RaceRun(states, moves) && Quiet(states[0])
    ensures (forall n :: 0 <= n < |states| ==> Held(states[n])) <==> Orderly(states, moves, |moves|)
  {
    if Orderly(states, moves, |moves|) {
      forall n | 0 <= n < |states|
        ensures Held(states[n])
      {
        OrderlyHolds(states, moves, n);
      }
    } else {
      var i, j :| 0 <= i < j < |moves| && (Overtaken(states, moves, i, j) || Undercut(states, moves, i, j));
      if Overtaken(states, moves, i, j) {
        OvertakenFails(states, moves, i, j);
      } else {
        UndercutFails(states, moves, i, j);
      }
    }
  }

  // ---- The interleaved machine is the service's own ----

  /** What the machine keeps of the service: the handlers in between and the highest delivery come from outside it. */
  function Seen(s: Session, m: Outbox.Mem, fetched: multiset<nat>, checked: multiset<nat>, highest: nat): Race {
    Race(m.acked, m.latest, s.lastDelivered, fetched, checked, highest)
  }

  /** How far a served batch goes. */
  function EndOf(batch: Outbox.EventsResult): nat {
    match batch
    case Batch(events, acked, _) => if events == [] then acked else events[|events| - 1].sequence
    case EventsRefused(acked, _) => acked
  }

  /** An accepted handshake is one move. */
  lemma HandshakeMoves(trim: string -> string, s: Session, m: Outbox.Mem, now: int, id: string,
                       fetched: multiset<nat>, checked: multiset<nat>, highest: nat)
    requires Handshake(trim, s, now, id, m.acked).1
    ensures Moves(Seen(s, m, fetched, checked, highest), Greet,
                  Seen(Handshake(trim, s, now, id, m.acked).0, m, fetched, checked, Max(highest, m.acked)))
  {
  }

  /** The first half of serving events: touching the lease and reading the outbox. */
  lemma FetchReads(c: Coding<Envelope>, max: nat, trim: string -> string, s: Session, m: Outbox.Mem, d: Outbox.Disk, t: OutboxSafety.Trace,
                   now: int, header: string, after: nat, limit: nat, fetched: multiset<nat>, checked: multiset<nat>, highest: nat)
    requires OutboxSafety.Inv(c, max, t, m, d) && Outbox.Events(m, after, limit).Batch?
    ensures Moves(Seen(s, m, fetched, checked, highest), Read(limit),
                  Seen(Touch(trim, s, now, header).0, m, fetched + multiset{EndOf(Outbox.Events(m, after, limit))}, checked, highest))
  {
    OutboxSafety.Meaning(c, max, t, m, d);
  }

  /** The second half: noting how far the batch went. */
  lemma FetchNotes(s: Session, m: Outbox.Mem, batch: Outbox.EventsResult, fetched: multiset<nat>, checked: multiset<nat>, highest: nat)
    requires batch.Batch? && EndOf(batch) in fetched
    ensures Moves(Seen(s, m, fetched, checked, highest), Note(EndOf(batch)),
                  Seen(Delivered(s, batch), m, fetched - multiset{EndOf(batch)}, checked, Max(highest, EndOf(batch))))
  {
  }

  /** The first half of confirming: touching the lease and comparing with what was delivered. */
  lemma ConfirmChecks(trim: string -> string, s: Session, m: Outbox.Mem, now: int, header: string, sequence: nat,
                      fetched: multiset<nat>, checked: multiset<nat>, highest: nat)
    requires sequence <= s.lastDelivered
    ensures Moves(Seen(s, m, fetched, checked, highest), Check(sequence),
                  Seen(Touch(trim, s, now, header).0, m, fetched, checked + multiset{sequence}, highest))
  {
  }

  /** The second half: the outbox acknowledges, or its checkpoint fails and it does not. */
  lemma ConfirmApplies(c: Coding<Envelope>, max: nat, s: Session, m: Outbox.Mem, d: Outbox.Disk, t: OutboxSafety.Trace, sequence: nat,
                       fault: Outbox.AckFault, fetched: multiset<nat>, checked: multiset<nat>, highest: nat)
    requires OutboxSafety.Inv(c, max, t, m, d) && sequence in checked
    ensures Moves(Seen(s, m, fetched, checked, highest), if fault.CheckpointFailed? then Fail(sequence) else Apply(sequence),
                  Seen(s, Outbox.Ack(c, m, d, sequence, fault).0, fetched, checked - multiset{sequence}, highest))
  {
    OutboxSafety.AckKeeps(c, max, t, m, d, sequence, fault);
  }

  /** An event that is appended is one move; an append that fails or is refused leaves the projected state alone. */
  lemma AppendPublishes(c: Coding<Envelope>, max: nat, s: Session, m: Outbox.Mem, d: Outbox.Disk, id: string, kind: string, at: int,
                        payload: seq<Byte>, p: Outbox.Priority, fault: WriteFault, fetched: multiset<nat>, checked: multiset<nat>, highest: nat)
    ensures var (m', _, r) := Outbox.Append(c, max, m, d, id, kind, at, payload, p, fault);
            var before, after := Seen(s, m, fetched, checked, highest), Seen(s, m', fetched, checked, highest);
            if r.Appended? then Moves(before, Publish, after) else after == before
  {
  }

  // ---- Where it fails ----

  /** Two fetches overlap, the longer one is acknowledged, then the shorter one is noted. */
  lemma LateNote()
    ensures var r0 := Race(0, 5, 0, multiset{}, multiset{}, 0);
            var r1 := MoveOn(MoveOn(MoveOn(r0, Read(2)), Read(5)), Note(5));
            var r2 := MoveOn(MoveOn(r1, Check(5)), Apply(5));
            var r3 := MoveOn(r2, Note(2));
            && CanMove(MoveOn(MoveOn(r0, Read(2)), Read(5)), Note(5)) && CanMove(r1, Check(5)) && CanMove(r2, Note(2))
            && r3.acked == 5 && r3.delivered == 2
  {
  }

  /** A handshake slips between the check of an acknowledgement and its application. */
  lemma HandshakeBetween()
    ensures var r0 := Race(0, 5, 5, multiset{}, multiset{}, 5);
            var r1 := MoveOn(MoveOn(r0, Check(5)), Greet);
            var r2 := MoveOn(r1, Apply(5));
            CanMove(r0, Check(5)) && CanMove(r1, Apply(5)) && r2.acked == 5 && r2.delivered == 0
  {
  }
}
