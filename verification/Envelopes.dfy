/** The event container that crosses from the server to the Agent, and histories of it. */
module Envelopes {
  import opened Basics
  import opened RecordLog

  datatype Envelope = Envelope(id: string, sequence: nat, kind: string, createdAt: int, payload: seq<Byte>)

  /** Everything the server ever appended: numbered 1, 2, 3, ..., identified, small enough to store. */
  ghost predicate History(c: Coding<Envelope>, h: seq<Envelope>) {
    forall i :: 0 <= i < |h| ==> h[i].sequence == i + 1 && h[i].id != "" && Fits(c, h[i])
  }

  /** No two events share an ID. */
  ghost predicate DistinctIds(h: seq<Envelope>) {
    forall i, j :: 0 <= i < j < |h| ==> h[i].id != h[j].id
  }

  /** Whether an event is numbered past a cursor. */
  function Past(cursor: nat): Envelope -> bool {
    (e: Envelope) => e.sequence > cursor
  }

  /** Reading a numbered history past a cursor gives the suffix behind the cursor. */
  lemma PastHistory(h: seq<Envelope>, lo: nat, cursor: nat, hi: nat)
    requires forall i :: 0 <= i < |h| ==> h[i].sequence == i + 1
    requires lo <= cursor <= hi <= |h|
    ensures Filter(Past(cursor), h[lo..hi]) == h[cursor..hi]
  {
    var xs, ys := h[lo..cursor], h[cursor..hi];
    assert h[lo..hi] == xs + ys;
    FilterAppend(Past(cursor), xs, ys);
    FilterNone(Past(cursor), xs);
    FilterEvery(Past(cursor), ys);
  }
}
