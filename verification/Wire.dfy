/**
 The primitives of the wire protocol: little-endian numbers, LEB128 integers, strings, options,
 arrays and sorted maps. Floating-point numbers appear as their bit patterns and strings as
 their bytes. A reader returns the value and the bytes that follow, or fails.
 */
module Wire {
  import opened Basics

  type U16 = x: int | 0 <= x < 0x1_0000
  type U32 = x: int | 0 <= x < 0x1_0000_0000
  type I8 = x: int | -0x80 <= x < 0x80
  type I32 = x: int | -0x8000_0000 <= x < 0x8000_0000

  const MAX_LENGTH := 0x7FFF_FFFF

  datatype Read<+T> = Fail | Got(value: T, rest: seq<Byte>) {
    predicate IsFailure() {
      Fail?
    }

    function PropagateFailure<U>(): Read<U>
      requires IsFailure()
    {
      Fail
    }

    function Extract(): (T, seq<Byte>)
      requires !IsFailure()
    {
      (value, rest)
    }
  }

  /** Whatever follows, the reader takes exactly these bytes and yields this value. */
  ghost predicate Yields<T>(read: seq<Byte> -> Read<T>, bytes: seq<Byte>, value: T) {
    forall rest :: read(bytes + rest) == Got(value, rest)
  }

  // ---- Numbers ----

  function ReadU8(b: seq<Byte>): Read<Byte> {
    if b == [] then Fail else Got(b[0], b[1..])
  }

  function PutBool(v: bool): seq<Byte> {
    if v then [1] else [0]
  }

  /** Any byte but 1 reads as false. */
  function ReadBool(b: seq<Byte>): Read<bool> {
    match ReadU8(b) case Fail => Fail case Got(v, rest) => Got(v == 1, rest)
  }

  /** Two's complement in eight bits. */
  function PutI8(v: I8): seq<Byte> {
    [if v >= 0 then v else v + 0x100]
  }

  function ReadI8(b: seq<Byte>): Read<I8> {
    match ReadU8(b) case Fail => Fail case Got(v, rest) => Got(if v < 0x80 then v else v - 0x100, rest)
  }

  function PutU16(v: U16): seq<Byte> {
    [v % 256, v / 256]
  }

  function ReadU16(b: seq<Byte>): Read<U16> {
    if |b| < 2 then Fail else Got((b[0] as int) + (b[1] as int) * 256, b[2..])
  }

  function PutU32(v: U32): seq<Byte> {
    [v % 256, v / 256 % 256, v / 0x1_0000 % 256, v / 0x100_0000]
  }

  function ReadU32(b: seq<Byte>): Read<U32> {
    if |b| < 4 then Fail
    else Got((b[0] as int) + (b[1] as int) * 256 + (b[2] as int) * 0x1_0000 + (b[3] as int) * 0x100_0000, b[4..])
  }

  function PutI32(v: I32): seq<Byte> {
    PutU32(if v >= 0 then v else v + 0x1_0000_0000)
  }

  function ReadI32(b: seq<Byte>): Read<I32> {
    match ReadU32(b) case Fail => Fail case Got(v, rest) => Got(if v < 0x8000_0000 then v else v - 0x1_0000_0000, rest)
  }

  lemma BoolYields(v: bool)
    ensures Yields(ReadBool, PutBool(v), v)
  {
  }

  lemma I8Yields(v: I8)
    ensures Yields(ReadI8, PutI8(v), v)
  {
  }

  lemma U32Yields(v: U32)
    ensures Yields(ReadU32, PutU32(v), v)
  {
    assert v / 256 == v / 0x1_0000 * 256 + v / 256 % 256;
    assert v / 0x1_0000 == v / 0x100_0000 * 256 + v / 0x1_0000 % 256;
    forall rest ensures ReadU32(PutU32(v) + rest) == Got(v, rest) {
      assert (PutU32(v) + rest)[4..] == rest;
    }
  }

  lemma I32Yields(v: I32)
    ensures Yields(ReadI32, PutI32(v), v)
  {
    var u: U32 := if v >= 0 then v else v + 0x1_0000_0000;
    U32Yields(u);
    forall rest ensures ReadI32(PutI32(v) + rest) == Got(v, rest) {
      assert ReadU32(PutU32(u) + rest) == Got(u, rest);
    }
  }

  // ---- LEB128 (section 7.6 of DWARF 5) ----

  function PutUleb(n: nat): (b: seq<Byte>)
    ensures b != []
  {
    if n < 128 then [n] else [n % 128 + 128] + PutUleb(n / 128)
  }

  /** Seven bits a byte, lowest first, up to the first byte without the continuation bit. */
  function ReadGroups(b: seq<Byte>): Read<nat> {
    if b == [] then Fail
    else if b[0] < 128 then Got(b[0], b[1..])
    else match ReadGroups(b[1..]) case Fail => Fail case Got(v, rest) => Got(b[0] - 128 + 128 * v, rest)
  }

  /** The reader's accumulator has 64 bits. */
  function ReadUleb(b: seq<Byte>): Read<nat> {
    match ReadGroups(b) case Fail => Fail case Got(v, rest) => Got(v % 0x1_0000_0000_0000_0000, rest)
  }

  lemma {:induction false} GroupsRead(n: nat, rest: seq<Byte>)
    ensures ReadGroups(PutUleb(n) + rest) == Got(n, rest)
    decreases n
  {
    var b := PutUleb(n) + rest;
    if n < 128 {
      assert b[1..] == rest;
    } else {
      assert b[1..] == PutUleb(n / 128) + rest;
      GroupsRead(n / 128, rest);
      assert n == 128 * (n / 128) + n % 128;
    }
  }

  lemma UlebYields(n: nat)
    requires n < 0x1_0000_0000_0000_0000
    ensures Yields(ReadUleb, PutUleb(n), n)
  {
    forall rest ensures ReadUleb(PutUleb(n) + rest) == Got(n, rest) {
      GroupsRead(n, rest);
    }
  }

  /** A length prefix; lengths that do not fit 31 bits are refused. */
  function ReadLength(b: seq<Byte>): Read<nat> {
    match ReadUleb(b) case Fail => Fail case Got(n, rest) => if n > MAX_LENGTH then Fail else Got(n, rest)
  }

  lemma LengthYields(n: nat)
    requires n <= MAX_LENGTH
    ensures Yields(ReadLength, PutUleb(n), n)
  {
    UlebYields(n);
    forall rest ensures ReadLength(PutUleb(n) + rest) == Got(n, rest) {
      assert ReadUleb(PutUleb(n) + rest) == Got(n, rest);
    }
  }

  // ---- Strings ----

  function PutString(s: seq<Byte>): seq<Byte> {
    PutUleb(|s|) + s
  }

  function ReadString(b: seq<Byte>): Read<seq<Byte>> {
    match ReadLength(b)
    case Fail => Fail
    case Got(n, rest) => if |rest| < n then Fail else Got(rest[..n], rest[n..])
  }

  function ReadVarchar(max: nat): seq<Byte> -> Read<seq<Byte>> {
    b => match ReadLength(b)
      case Fail => Fail
      case Got(n, rest) => if n > max || |rest| < n then Fail else Got(rest[..n], rest[n..])
  }

  lemma StringYields(s: seq<Byte>)
    requires |s| <= MAX_LENGTH
    ensures Yields(ReadString, PutString(s), s)
    ensures forall max: nat :: |s| <= max ==> Yields(ReadVarchar(max), PutString(s), s)
  {
    LengthYields(|s|);
    forall rest
      ensures ReadString(PutString(s) + rest) == Got(s, rest)
      ensures forall max: nat :: |s| <= max ==> ReadVarchar(max)(PutString(s) + rest) == Got(s, rest)
    {
      assert PutString(s) + rest == PutUleb(|s|) + (s + rest);
      assert (s + rest)[..|s|] == s && (s + rest)[|s|..] == rest;
    }
  }

  // ---- Options and arrays ----

  function PutOption<T>(put: T -> seq<Byte>, v: Option<T>): seq<Byte> {
    match v case None => PutBool(false) case Some(x) => PutBool(true) + put(x)
  }

  function ReadOption<T>(read: seq<Byte> -> Read<T>, b: seq<Byte>): Read<Option<T>> {
    match ReadBool(b)
    case Fail => Fail
    case Got(false, rest) => Got(None, rest)
    case Got(true, rest) => (match read(rest) case Fail => Fail case Got(v, rest') => Got(Some(v), rest'))
  }

  function PutItems<T>(put: T -> seq<Byte>, xs: seq<T>): seq<Byte> {
    if xs == [] then [] else put(xs[0]) + PutItems(put, xs[1..])
  }

  function PutArray<T>(put: T -> seq<Byte>, xs: seq<T>): seq<Byte> {
    PutUleb(|xs|) + PutItems(put, xs)
  }

  function ReadItems<T>(read: seq<Byte> -> Read<T>, n: nat, b: seq<Byte>): Read<seq<T>> {
    if n == 0 then Got([], b)
    else
      match read(b)
      case Fail => Fail
      case Got(x, rest) => (match ReadItems(read, n - 1, rest) case Fail => Fail case Got(xs, rest') => Got([x] + xs, rest'))
  }

  function ReadArray<T>(read: seq<Byte> -> Read<T>, b: seq<Byte>): Read<seq<T>> {
    match ReadLength(b) case Fail => Fail case Got(n, rest) => ReadItems(read, n, rest)
  }

  lemma {:induction false} ItemsYield<T>(put: T -> seq<Byte>, read: seq<Byte> -> Read<T>, xs: seq<T>, ys: seq<T>, rest: seq<Byte>)
    requires |xs| == |ys| && forall i :: 0 <= i < |xs| ==> Yields(read, put(xs[i]), ys[i])
    ensures ReadItems(read, |xs|, PutItems(put, xs) + rest) == Got(ys, rest)
    decreases |xs|
  {
    if xs == [] {
      assert PutItems(put, xs) + rest == rest;
    } else {
      var tail := PutItems(put, xs[1..]) + rest;
      assert PutItems(put, xs) + rest == put(xs[0]) + tail;
      ItemsYield(put, read, xs[1..], ys[1..], rest);
      assert ys == [ys[0]] + ys[1..];
    }
  }

  lemma ArrayRead<T>(put: T -> seq<Byte>, read: seq<Byte> -> Read<T>, xs: seq<T>, ys: seq<T>, rest: seq<Byte>)
    requires |xs| == |ys| <= MAX_LENGTH && forall i :: 0 <= i < |xs| ==> Yields(read, put(xs[i]), ys[i])
    ensures ReadArray(read, PutArray(put, xs) + rest) == Got(ys, rest)
  {
    var tail := PutItems(put, xs) + rest;
    LengthYields(|xs|);
    assert PutArray(put, xs) + rest == PutUleb(|xs|) + tail;
    assert ReadLength(PutUleb(|xs|) + tail) == Got(|xs|, tail);
    ItemsYield(put, read, xs, ys, rest);
  }

  lemma OptionRead<T>(put: T -> seq<Byte>, read: seq<Byte> -> Read<T>, v: Option<T>, w: Option<T>, rest: seq<Byte>)
    requires v.None? == w.None? && (v.Some? ==> Yields(read, put(v.value), w.value))
    ensures ReadOption(read, PutOption(put, v) + rest) == Got(w, rest)
  {
    match v
    case None => BoolYields(false);
    case Some(x) =>
      BoolYields(true);
      assert PutOption(put, v) + rest == PutBool(true) + (put(x) + rest);
  }

  // ---- Sorted maps ----

  lemma {:induction false} FindLeast(s: set<I32>) returns (least: I32)
    requires s != {}
    ensures least in s && forall y :: y in s ==> least <= y
    decreases |s|
  {
    var x :| x in s;
    var rest := s - {x};
    assert forall y :: y in s ==> y == x || y in rest;
    if rest == {} { return x; }
    least := FindLeast(rest);
    if x < least { least := x; }
  }

  lemma HasLeast(s: set<I32>)
    requires s != {}
    ensures exists x :: x in s && forall y :: y in s ==> x <= y
  {
    var least := FindLeast(s);
  }

  /** The keys in ascending order. */
  ghost function SortedKeys(s: set<I32>): seq<I32>
    decreases |s|
  {
    if s == {} then []
    else
      HasLeast(s);
      var x :| x in s && forall y :: y in s ==> x <= y;
      assert |s - {x}| == |s| - 1;
      [x] + SortedKeys(s - {x})
  }

  lemma SortedKeysHead(s: set<I32>) returns (least: I32)
    requires s != {}
    ensures least in s && forall y :: y in s ==> least <= y
    ensures SortedKeys(s) == [least] + SortedKeys(s - {least})
  {
    HasLeast(s);
    least := SortedKeys(s)[0];
  }

  lemma Prepended(s: set<I32>, least: I32, tail: seq<I32>, ks: seq<I32>)
    requires least in s && (forall y :: y in s ==> least <= y) && ks == [least] + tail && |tail| == |s - {least}|
    requires forall x :: x in tail <==> x in s - {least}
    requires forall i, j :: 0 <= i < j < |tail| ==> tail[i] < tail[j]
    ensures |ks| == |s| && (forall x :: x in ks <==> x in s)
    ensures forall i, j :: 0 <= i < j < |ks| ==> ks[i] < ks[j]
  {
    forall i, j | 0 <= i < j < |ks|
      ensures ks[i] < ks[j]
    {
      assert ks[j] == tail[j - 1] && tail[j - 1] in tail;
    }
  }

  lemma {:induction false} SortedKeysExact(s: set<I32>)
    ensures |SortedKeys(s)| == |s|
    ensures forall x :: x in SortedKeys(s) <==> x in s
    ensures forall i, j :: 0 <= i < j < |SortedKeys(s)| ==> SortedKeys(s)[i] < SortedKeys(s)[j]
    decreases |s|
  {
    if s != {} {
      var least := SortedKeysHead(s);
      SortedKeysExact(s - {least});
      Prepended(s, least, SortedKeys(s - {least}), SortedKeys(s));
    }
  }

  ghost function PutPairs<V>(put: V -> seq<Byte>, m: map<I32, V>, keys: seq<I32>): seq<Byte>
    requires forall k :: k in keys ==> k in m
  {
    if keys == [] then [] else PutI32(keys[0]) + (put(m[keys[0]]) + PutPairs(put, m, keys[1..]))
  }

  ghost function PutMap<V>(put: V -> seq<Byte>, m: map<I32, V>): seq<Byte> {
    SortedKeysExact(m.Keys);
    PutEntries(put, m, SortedKeys(m.Keys))
  }

  ghost function PutEntries<V>(put: V -> seq<Byte>, m: map<I32, V>, keys: seq<I32>): seq<Byte>
    requires forall k :: k in keys ==> k in m
  {
    PutUleb(|keys|) + PutPairs(put, m, keys)
  }

  /** Reads n pairs; a repeated key overrides. */
  function ReadPairs<V>(read: seq<Byte> -> Read<V>, n: nat, b: seq<Byte>, found: map<I32, V>): Read<map<I32, V>> {
    if n == 0 then Got(found, b)
    else
      match ReadI32(b)
      case Fail => Fail
      case Got(k, rest) =>
        (match read(rest)
         case Fail => Fail
         case Got(v, rest') => ReadPairs(read, n - 1, rest', found[k := v]))
  }

  function ReadMap<V>(read: seq<Byte> -> Read<V>, b: seq<Byte>): Read<map<I32, V>> {
    match ReadLength(b) case Fail => Fail case Got(n, rest) => ReadPairs(read, n, rest, map[])
  }

  /** The pairs put into a map one after the other. */
  function Collect<V>(w: map<I32, V>, keys: seq<I32>, found: map<I32, V>): map<I32, V>
    requires forall k :: k in keys ==> k in w
  {
    if keys == [] then found else Collect(w, keys[1..], found[keys[0] := w[keys[0]]])
  }

  lemma {:induction false} CollectExact<V>(w: map<I32, V>, keys: seq<I32>, found: map<I32, V>)
    requires forall k :: k in keys ==> k in w
    ensures forall k :: k in Collect(w, keys, found) <==> k in keys || k in found
    ensures forall k :: k in Collect(w, keys, found) && (k in keys || (k in w && found[k] == w[k])) ==> k in w && Collect(w, keys, found)[k] == w[k]
    decreases |keys|
  {
    if keys != [] {
      assert keys == [keys[0]] + keys[1..];
      CollectExact(w, keys[1..], found[keys[0] := w[keys[0]]]);
    }
  }

  lemma {:induction false} PairsYield<V>(put: V -> seq<Byte>, read: seq<Byte> -> Read<V>, m: map<I32, V>, w: map<I32, V>,
                                         keys: seq<I32>, found: map<I32, V>, rest: seq<Byte>)
    requires forall k :: k in keys ==> k in m && k in w && Yields(read, put(m[k]), w[k])
    ensures ReadPairs(read, |keys|, PutPairs(put, m, keys) + rest, found) == Got(Collect(w, keys, found), rest)
    decreases |keys|
  {
    if keys == [] {
      assert PutPairs(put, m, keys) + rest == rest;
    } else {
      var k, tail := keys[0], keys[1..];
      var after := PutPairs(put, m, tail) + rest;
      assert PutPairs(put, m, keys) + rest == PutI32(k) + (put(m[k]) + after);
      I32Yields(k);
      assert ReadI32(PutI32(k) + (put(m[k]) + after)) == Got(k, put(m[k]) + after);
      PairsYield(put, read, m, w, tail, found[k := w[k]], rest);
    }
  }

  lemma CollectAll<V>(w: map<I32, V>, keys: seq<I32>)
    requires forall k :: k in keys <==> k in w
    ensures Collect(w, keys, map[]) == w
  {
    CollectExact(w, keys, map[]);
  }

  lemma EntriesRead<V>(put: V -> seq<Byte>, read: seq<Byte> -> Read<V>, m: map<I32, V>, w: map<I32, V>, keys: seq<I32>, rest: seq<Byte>)
    requires |keys| <= MAX_LENGTH && forall k :: k in keys <==> k in w
    requires forall k :: k in keys ==> k in m && k in w && Yields(read, put(m[k]), w[k])
    ensures ReadMap(read, PutEntries(put, m, keys) + rest) == Got(w, rest)
  {
    var tail := PutPairs(put, m, keys) + rest;
    assert PutEntries(put, m, keys) + rest == PutUleb(|keys|) + tail;
    LengthYields(|keys|);
    assert ReadLength(PutUleb(|keys|) + tail) == Got(|keys|, tail);
    PairsYield(put, read, m, w, keys, map[], rest);
    CollectAll(w, keys);
  }

  lemma MapRead<V>(put: V -> seq<Byte>, read: seq<Byte> -> Read<V>, m: map<I32, V>, w: map<I32, V>, rest: seq<Byte>)
    requires |m| <= MAX_LENGTH && m.Keys == w.Keys && forall k :: k in m ==> Yields(read, put(m[k]), w[k])
    ensures ReadMap(read, PutMap(put, m) + rest) == Got(w, rest)
  {
    SortedKeysExact(m.Keys);
    EntriesRead(put, read, m, w, SortedKeys(m.Keys), rest);
  }
}
