/**
 The append-only record format shared by the server outbox, the Agent inbox and the
 webhook ledger: a four-byte big-endian length, a four-byte checksum, then the JSON body.
 Recovery reads records until the first one that is incomplete or refused, and keeps
 exactly the bytes before it.
 */
module RecordLog {
  import opened Basics

  const HEADER_SIZE := 8
  const MAX_RECORD_SIZE := 0x10_0000
  const WORD := 0x1_0000_0000

  /** JSON marshalling and the CRC-32 checksum, left uninterpreted. */
  datatype Coding<!T> = Coding(
    marshal: T -> seq<Byte>,
    unmarshal: seq<Byte> -> Option<T>,
    checksum: seq<Byte> -> nat)

  /** What the stores rely on: bodies are non-empty and decode to what was encoded. */
  ghost predicate Lawful<T(!new)>(c: Coding<T>) {
    && (forall x :: c.marshal(x) != [] && c.unmarshal(c.marshal(x)) == Some(x))
    && (forall d :: c.checksum(d) < WORD)
  }

  /** Big-endian, truncated to 32 bits. */
  function PutWord(n: nat): (b: seq<Byte>)
    ensures |b| == 4
  {
    [n / 0x100_0000 % 256, n / 0x1_0000 % 256, n / 256 % 256, n % 256]
  }

  function GetWord(b: seq<Byte>): (n: nat)
    requires |b| == 4
    ensures n < WORD
  {
    (b[0] as int) * 0x100_0000 + (b[1] as int) * 0x1_0000 + (b[2] as int) * 256 + b[3]
  }

  lemma WordRoundTrip(n: nat)
    requires n < WORD
    ensures GetWord(PutWord(n)) == n
  {
    assert n / 0x1_0000 == n / 0x100_0000 * 256 + n / 0x1_0000 % 256;
    assert n / 256 == n / 0x1_0000 * 256 + n / 256 % 256;
  }

  /** What the file system may do to an append: complete it, write only part of it, or write it without making it durable. */
  datatype WriteFault = NoFault | ShortWrite(written: nat) | SyncFailed

  predicate Fits<T>(c: Coding<T>, x: T) {
    |c.marshal(x)| <= MAX_RECORD_SIZE
  }

  function Record<T>(c: Coding<T>, x: T): (b: seq<Byte>)
    ensures |b| == HEADER_SIZE + |c.marshal(x)|
  {
    var data := c.marshal(x);
    PutWord(|data|) + PutWord(c.checksum(data)) + data
  }

  function LogBytes<T>(c: Coding<T>, xs: seq<T>): (b: seq<Byte>) {
    if xs == [] then [] else Record(c, xs[0]) + LogBytes(c, xs[1..])
  }

  /** One read from the head of the file. */
  datatype Parsed = Eof | Torn | Body(data: seq<Byte>, size: nat)

  function Parse<T>(c: Coding<T>, b: seq<Byte>): (p: Parsed)
    ensures p.Body? ==> HEADER_SIZE < p.size <= |b|
  {
    if b == [] then Eof
    else if |b| < HEADER_SIZE then Torn
    else
      var length := GetWord(b[..4]);
      if length == 0 || length > MAX_RECORD_SIZE then Torn
      else if |b| < HEADER_SIZE + length then Torn
      else
        var data := b[HEADER_SIZE..HEADER_SIZE + length];
        if c.checksum(data) != GetWord(b[4..HEADER_SIZE]) then Torn
        else Body(data, HEADER_SIZE + length)
  }

  /** The next record of the file, if it is whole and the store's own check admits it. */
  function Take<T, S>(c: Coding<T>, admit: (S, T) -> Option<S>, st: S, b: seq<Byte>): (r: Option<(T, S, nat)>)
    ensures r.Some? ==> HEADER_SIZE < r.value.2 <= |b|
  {
    match Parse(c, b)
    case Body(data, size) =>
      (match c.unmarshal(data)
       case Some(x) => (match admit(st, x) case Some(st') => Some((x, st', size)) case None => None)
       case None => None)
    case _ => None
  }

  /** The records recovery returns. */
  function Scan<T, S>(c: Coding<T>, admit: (S, T) -> Option<S>, st: S, b: seq<Byte>): seq<T>
    decreases |b|
  {
    match Take(c, admit, st, b)
    case Some((x, st', size)) => [x] + Scan(c, admit, st', b[size..])
    case None => []
  }

  /** The byte length recovery keeps. */
  function Kept<T, S>(c: Coding<T>, admit: (S, T) -> Option<S>, st: S, b: seq<Byte>): (k: nat)
    ensures k <= |b|
    decreases |b|
  {
    match Take(c, admit, st, b)
    case Some((x, st', size)) => size + Kept(c, admit, st', b[size..])
    case None => 0
  }

  /** The store's check admits xs one after the other. */
  predicate Admits<T, S>(admit: (S, T) -> Option<S>, st: S, xs: seq<T>) {
    xs == [] || (admit(st, xs[0]).Some? && Admits(admit, admit(st, xs[0]).value, xs[1..]))
  }

  // ---- Facts about one record ----

  lemma ParseRecord<T(!new)>(c: Coding<T>, x: T, rest: seq<Byte>)
    requires Lawful(c) && Fits(c, x)
    ensures Parse(c, Record(c, x) + rest) == Body(c.marshal(x), |Record(c, x)|)
  {
    var data := c.marshal(x);
    var b := Record(c, x) + rest;
    WordRoundTrip(|data|);
    WordRoundTrip(c.checksum(data));
    assert b[..4] == PutWord(|data|);
    assert b[4..HEADER_SIZE] == PutWord(c.checksum(data));
    assert b[HEADER_SIZE..HEADER_SIZE + |data|] == data;
  }

  lemma TakeRecord<T(!new), S>(c: Coding<T>, admit: (S, T) -> Option<S>, st: S, x: T, rest: seq<Byte>)
    requires Lawful(c) && Fits(c, x) && admit(st, x).Some?
    ensures Take(c, admit, st, Record(c, x) + rest) == Some((x, admit(st, x).value, |Record(c, x)|))
  {
    ParseRecord(c, x, rest);
  }

  /** A strict prefix of a record never reads as a record. */
  lemma ParsePartial<T(!new)>(c: Coding<T>, x: T, part: seq<Byte>)
    requires Lawful(c) && Fits(c, x)
    requires Prefix(part, Record(c, x)) && |part| < |Record(c, x)|
    ensures !Parse(c, part).Body?
  {
    if |part| >= HEADER_SIZE {
      WordRoundTrip(|c.marshal(x)|);
      assert part[..4] == Record(c, x)[..4] == PutWord(|c.marshal(x)|);
    }
  }

  lemma {:induction false} LogBytesAppend<T>(c: Coding<T>, xs: seq<T>, ys: seq<T>)
    ensures LogBytes(c, xs + ys) == LogBytes(c, xs) + LogBytes(c, ys)
  {
    if xs == [] {
      assert xs + ys == ys;
    } else {
      assert (xs + ys)[1..] == xs[1..] + ys;
      LogBytesAppend(c, xs[1..], ys);
    }
  }

  lemma LogBytesOne<T>(c: Coding<T>, x: T)
    ensures LogBytes(c, [x]) == Record(c, x)
  {
    assert [x][1..] == [];
  }

  // ---- Recovery is exact ----

  /** A file that starts with an admitted record: recovery takes it and goes on behind it. */
  lemma ScanRecord<T(!new), S>(c: Coding<T>, admit: (S, T) -> Option<S>, st: S, x: T, rest: seq<Byte>, b: seq<Byte>)
    requires Lawful(c) && Fits(c, x) && admit(st, x).Some? && b == Record(c, x) + rest
    ensures Scan(c, admit, st, b) == [x] + Scan(c, admit, admit(st, x).value, rest)
    ensures Kept(c, admit, st, b) == |Record(c, x)| + Kept(c, admit, admit(st, x).value, rest)
  {
    TakeRecord(c, admit, st, x, rest);
    assert b[|Record(c, x)|..] == rest;
  }

  lemma {:induction false} RecoveryAt<T(!new), S>(
    c: Coding<T>, admit: (S, T) -> Option<S>, st: S, xs: seq<T>, tail: seq<Byte>, b: seq<Byte>)
    requires Lawful(c) && forall x :: x in xs ==> Fits(c, x)
    requires Admits(admit, st, xs)
    requires !Parse(c, tail).Body? && b == LogBytes(c, xs) + tail
    ensures Scan(c, admit, st, b) == xs && Kept(c, admit, st, b) == |LogBytes(c, xs)|
    decreases |xs|
  {
    if xs == [] {
      assert b == tail;
    } else {
      var rest := LogBytes(c, xs[1..]) + tail;
      assert b == Record(c, xs[0]) + rest;
      RecoveryAt(c, admit, admit(st, xs[0]).value, xs[1..], tail, rest);
      ScanRecord(c, admit, st, xs[0], rest, b);
    }
  }

  /** Whatever the bytes, the store's check admits what recovery returns. */
  lemma {:induction false} ScanAdmitted<T, S>(c: Coding<T>, admit: (S, T) -> Option<S>, st: S, b: seq<Byte>)
    ensures Admits(admit, st, Scan(c, admit, st, b))
    decreases |b|
  {
    match Take(c, admit, st, b)
    case Some((x, st', size)) =>
      ScanAdmitted(c, admit, st', b[size..]);
      assert ([x] + Scan(c, admit, st', b[size..]))[1..] == Scan(c, admit, st', b[size..]);
    case None =>
  }

  /** Whole admitted records followed by any unreadable tail come back exactly, and only they are kept. */
  lemma RecoveryExact<T(!new), S>(c: Coding<T>, admit: (S, T) -> Option<S>, st: S, xs: seq<T>, tail: seq<Byte>)
    requires Lawful(c) && forall x :: x in xs ==> Fits(c, x)
    requires Admits(admit, st, xs)
    requires !Parse(c, tail).Body?
    ensures Scan(c, admit, st, LogBytes(c, xs) + tail) == xs
    ensures Kept(c, admit, st, LogBytes(c, xs) + tail) == |LogBytes(c, xs)|
  {
    RecoveryAt(c, admit, st, xs, tail, LogBytes(c, xs) + tail);
  }

  /** The case of a crash in the middle of an append: records, then a strict prefix of one more. */
  lemma RecoveryAfterTornAppend<T(!new), S>(
    c: Coding<T>, admit: (S, T) -> Option<S>, st: S, xs: seq<T>, y: T, part: seq<Byte>)
    requires Lawful(c) && (forall x :: x in xs ==> Fits(c, x)) && Fits(c, y)
    requires Admits(admit, st, xs)
    requires Prefix(part, Record(c, y)) && |part| < |Record(c, y)|
    ensures Scan(c, admit, st, LogBytes(c, xs) + part) == xs
    ensures Kept(c, admit, st, LogBytes(c, xs) + part) == |LogBytes(c, xs)|
  {
    ParsePartial(c, y, part);
    RecoveryExact(c, admit, st, xs, part);
  }

  /** Any cut of a file of whole records is some of the records and a strict prefix of the next one. */
  lemma {:induction false} CutPoint<T>(c: Coding<T>, xs: seq<T>, n: nat) returns (j: nat)
    requires n <= |LogBytes(c, xs)|
    ensures j <= |xs| && |LogBytes(c, xs[..j])| <= n
    ensures LogBytes(c, xs)[..n] == LogBytes(c, xs[..j]) + LogBytes(c, xs)[|LogBytes(c, xs[..j])|..n]
    ensures j == |xs| ==> n == |LogBytes(c, xs)|
    ensures j < |xs| ==> var part := LogBytes(c, xs)[|LogBytes(c, xs[..j])|..n];
                         Prefix(part, Record(c, xs[j])) && |part| < |Record(c, xs[j])|
    decreases |xs|
  {
    if xs == [] {
      return 0;
    }
    var init, last := xs[..|xs| - 1], xs[|xs| - 1];
    assert xs == init + [last];
    LogBytesAppend(c, init, [last]);
    LogBytesOne(c, last);
    var b0, b := LogBytes(c, init), LogBytes(c, xs);
    assert b == b0 + Record(c, last);
    if n == |b| {
      assert xs[..|xs|] == xs;
      return |xs|;
    } else if n >= |b0| {
      assert b[..|b0|] == b0 && b[|b0|..n] == Record(c, last)[..n - |b0|];
      return |xs| - 1;
    } else {
      j := CutPoint(c, init, n);
      assert xs[..j] == init[..j];
      assert b[..n] == b0[..n] && b[|LogBytes(c, xs[..j])|..n] == b0[|LogBytes(c, xs[..j])|..n];
    }
  }

  // ---- The recovery loop ----

  /** The recovery loop as a recursion: the records so far, and the bytes it leaves. */
  function ReadAll<T, S>(c: Coding<T>, admit: (S, T) -> Option<S>, st: S, b: seq<Byte>, xs: seq<T>): (seq<T>, seq<Byte>)
    decreases |b|
  {
    match Take(c, admit, st, b)
    case None => (xs, b)
    case Some((x, st', size)) => ReadAll(c, admit, st', b[size..], xs + [x])
  }

  lemma {:induction false} ReadAllIs<T, S>(c: Coding<T>, admit: (S, T) -> Option<S>, st: S, b: seq<Byte>, xs: seq<T>)
    ensures ReadAll(c, admit, st, b, xs) == (xs + Scan(c, admit, st, b), b[Kept(c, admit, st, b)..])
    decreases |b|
  {
    match Take(c, admit, st, b)
    case None =>
      assert xs + [] == xs && b[0..] == b;
    case Some((x, st', size)) =>
      ReadAllIs(c, admit, st', b[size..], xs + [x]);
      assert xs + ([x] + Scan(c, admit, st', b[size..])) == xs + [x] + Scan(c, admit, st', b[size..]);
      assert b[size..][Kept(c, admit, st', b[size..])..] == b[size + Kept(c, admit, st', b[size..])..];
  }

  method RecordLoop<T, S>(c: Coding<T>, admit: (S, T) -> Option<S>, start: S, log: seq<Byte>)
    returns (xs: seq<T>, offset: nat)
    ensures offset <= |log| && (xs, log[offset..]) == ReadAll(c, admit, start, log, [])
  {
    xs, offset := [], 0;
    var st := start;
    assert log[0..] == log;
    while true
      invariant offset <= |log|
      invariant ReadAll(c, admit, st, log[offset..], xs) == ReadAll(c, admit, start, log, [])
      decreases |log| - offset
    {
      var next := Take(c, admit, st, log[offset..]);
      if next.None? { return; }
      assert log[offset..][next.value.2..] == log[offset + next.value.2..];
      xs, st, offset := xs + [next.value.0], next.value.1, offset + next.value.2;
    }
  }

  /** The recovery loop of all three stores: read a record at `offset`, check it, move past it; stop at the first failure. */
  method ReadRecords<T, S>(c: Coding<T>, admit: (S, T) -> Option<S>, start: S, log: seq<Byte>)
    returns (xs: seq<T>, offset: nat)
    ensures xs == Scan(c, admit, start, log)
    ensures offset == Kept(c, admit, start, log)
  {
    xs, offset := RecordLoop(c, admit, start, log);
    ReadAllIs(c, admit, start, log, []);
    assert |log[offset..]| == |log| - offset && [] + Scan(c, admit, start, log) == Scan(c, admit, start, log);
  }

  // ---- Reading back ----

  function AdmitAny<T>(u: (), x: T): Option<()> {
    Some(())
  }

  /**
   Reads the file from its head, keeping the wanted records, until `limit` are found or the file
   ends; a record that does not read is an error unless the limit was reached before it.
   */
  function Select<T>(c: Coding<T>, wanted: T -> bool, limit: nat, b: seq<Byte>): Option<seq<T>> {
    var found := Filter(wanted, Scan(c, AdmitAny<T>, (), b));
    if |found| >= limit then Some(found[..limit])
    else if Kept(c, AdmitAny<T>, (), b) == |b| then Some(found)
    else None
  }

  /** What reading on from bytes b adds to `out`, and the bytes it leaves. */
  function ReadOn<T>(c: Coding<T>, wanted: T -> bool, limit: nat, b: seq<Byte>, out: seq<T>): (seq<T>, seq<Byte>)
    decreases |b|
  {
    if |out| >= limit then (out, b)
    else
      match Take(c, AdmitAny<T>, (), b)
      case None => (out, b)
      case Some((x, _, size)) => ReadOn(c, wanted, limit, b[size..], if wanted(x) then out + [x] else out)
  }

  /** It adds the wanted records behind it, as far as the limit goes, and leaves nothing exactly when the file is whole. */
  lemma {:induction false} ReadOnIs<T>(c: Coding<T>, wanted: T -> bool, limit: nat, b: seq<Byte>, out: seq<T>)
    requires |out| <= limit
    ensures var found := out + Filter(wanted, Scan(c, AdmitAny<T>, (), b));
            var (r, rest) := ReadOn(c, wanted, limit, b, out);
            if |found| >= limit then r == found[..limit] else r == found && (rest == [] <==> Kept(c, AdmitAny<T>, (), b) == |b|)
    decreases |b|
  {
    match Take(c, AdmitAny<T>, (), b)
    case None =>
    case Some((x, st, size)) =>
      var tail := Scan(c, AdmitAny<T>, (), b[size..]);
      var out' := if wanted(x) then out + [x] else out;
      FilterAppend(wanted, [x], tail);
      FilterSnoc(wanted, [], x);
      assert [] + [x] == [x] && out + Filter(wanted, [x] + tail) == out' + Filter(wanted, tail);
      if |out| < limit {
        ReadOnIs(c, wanted, limit, b[size..], out');
      }
  }

  /** The read loop: stops at the limit, at the end of the file, or at a record that does not read. */
  method ReadLoop<T>(c: Coding<T>, wanted: T -> bool, limit: nat, log: seq<Byte>) returns (out: seq<T>, offset: nat)
    ensures offset <= |log| && (out, log[offset..]) == ReadOn(c, wanted, limit, log, [])
  {
    out, offset := [], 0;
    assert log[0..] == log;
    while |out| < limit
      invariant offset <= |log|
      invariant ReadOn(c, wanted, limit, log[offset..], out) == ReadOn(c, wanted, limit, log, [])
      decreases |log| - offset
    {
      var next := Take(c, AdmitAny<T>, (), log[offset..]);
      if next.None? { return; }
      var x, size := next.value.0, next.value.2;
      assert log[offset..][size..] == log[offset + size..];
      if wanted(x) { out := out + [x]; }
      offset := offset + size;
    }
  }

  method ReadSome<T>(c: Coding<T>, wanted: T -> bool, limit: nat, log: seq<Byte>) returns (r: Option<seq<T>>)
    ensures r == Select(c, wanted, limit, log)
  {
    var out, offset := ReadLoop(c, wanted, limit, log);
    ReadOnIs(c, wanted, limit, log, []);
    assert [] + Filter(wanted, Scan(c, AdmitAny<T>, (), log)) == Filter(wanted, Scan(c, AdmitAny<T>, (), log));
    return if |out| >= limit || offset == |log| then Some(out) else None;
  }

  lemma {:induction false} AnyAdmitted<T>(xs: seq<T>)
    ensures Admits(AdmitAny<T>, (), xs)
  {
    if xs != [] {
      AnyAdmitted(xs[1..]);
    }
  }

  lemma SelectWhole<T(!new)>(c: Coding<T>, wanted: T -> bool, limit: nat, xs: seq<T>)
    requires Lawful(c) && forall x :: x in xs ==> Fits(c, x)
    ensures var found := Filter(wanted, xs);
            Select(c, wanted, limit, LogBytes(c, xs)) == Some(if |found| >= limit then found[..limit] else found)
  {
    AnyAdmitted(xs);
    RecoveryExact(c, AdmitAny<T>, (), xs, []);
    assert LogBytes(c, xs) + [] == LogBytes(c, xs);
  }

  // ---- Recovery is idempotent, whatever the bytes are ----

  /** A record that reads from a file reads the same from any cut of it that leaves the record whole. */
  lemma TakePrefix<T, S>(c: Coding<T>, admit: (S, T) -> Option<S>, st: S, b: seq<Byte>, n: nat)
    requires n <= |b|
    requires Take(c, admit, st, b).Some? && Take(c, admit, st, b).value.2 <= n
    ensures Take(c, admit, st, b[..n]) == Take(c, admit, st, b)
  {
    var size := Take(c, admit, st, b).value.2;
    assert b[..n][..4] == b[..4];
    assert b[..n][4..HEADER_SIZE] == b[4..HEADER_SIZE];
    assert b[..n][HEADER_SIZE..size] == b[HEADER_SIZE..size];
  }

  lemma {:induction false} RecoveryIdempotent<T, S>(c: Coding<T>, admit: (S, T) -> Option<S>, st: S, b: seq<Byte>)
    ensures var kept := b[..Kept(c, admit, st, b)];
            && Scan(c, admit, st, kept) == Scan(c, admit, st, b)
            && Kept(c, admit, st, kept) == |kept|
    decreases |b|
  {
    match Take(c, admit, st, b)
    case Some((x, st', size)) =>
      var k := Kept(c, admit, st, b);
      TakePrefix(c, admit, st, b, k);
      RecoveryIdempotent(c, admit, st', b[size..]);
      assert b[..k][size..] == b[size..][..k - size];
    case None =>
      assert b[..0] == [];
  }
}
