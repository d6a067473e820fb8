/**
 What the decoders accept: nothing but well-formed commands, whatever the bytes, and no command
 from less than all of its bytes.
 */
module Decoding {
  import opened Basics
  import opened Wire
  import opened Commands

  /** More bytes behind those that were read change nothing but what is left. */
  ghost predicate Same<T>(r: Read<T>, r': Read<T>, more: seq<Byte>) {
    match r
    case Got(value, rest) => r' == Got(value, rest + more)
    case Fail => true
  }

  /** The reader does not look beyond what it takes, and yields only what is in order. */
  ghost predicate Firm<T(!new)>(read: seq<Byte> -> Read<T>, ok: T -> bool) {
    forall b, more {:trigger read(b + more)} :: Same(read(b), read(b + more), more) && (read(b).Got? ==> ok(read(b).value))
  }

  // ---- Primitives ----

  lemma U8Firm(b: seq<Byte>, more: seq<Byte>)
    ensures Same(ReadU8(b), ReadU8(b + more), more)
  {
    if b != [] {
      assert (b + more)[1..] == b[1..] + more;
    }
  }

  lemma BoolFirm(b: seq<Byte>, more: seq<Byte>)
    ensures Same(ReadBool(b), ReadBool(b + more), more)
  {
    U8Firm(b, more);
  }

  lemma I8Firm(b: seq<Byte>, more: seq<Byte>)
    ensures Same(ReadI8(b), ReadI8(b + more), more)
  {
    U8Firm(b, more);
  }

  lemma U16Firm(b: seq<Byte>, more: seq<Byte>)
    ensures Same(ReadU16(b), ReadU16(b + more), more)
  {
    if |b| >= 2 {
      assert (b + more)[2..] == b[2..] + more;
    }
  }

  lemma U32Firm(b: seq<Byte>, more: seq<Byte>)
    ensures Same(ReadU32(b), ReadU32(b + more), more)
  {
    if |b| >= 4 {
      assert (b + more)[4..] == b[4..] + more;
    }
  }

  lemma I32Firm(b: seq<Byte>, more: seq<Byte>)
    ensures Same(ReadI32(b), ReadI32(b + more), more)
  {
    U32Firm(b, more);
  }

  lemma {:induction false} GroupsFirm(b: seq<Byte>, more: seq<Byte>)
    ensures Same(ReadGroups(b), ReadGroups(b + more), more)
    decreases |b|
  {
    if b != [] {
      assert (b + more)[1..] == b[1..] + more;
      GroupsFirm(b[1..], more);
    }
  }

  lemma LengthFirm(b: seq<Byte>, more: seq<Byte>)
    ensures Same(ReadLength(b), ReadLength(b + more), more)
    ensures ReadLength(b).Got? ==> ReadLength(b).value <= MAX_LENGTH
  {
    GroupsFirm(b, more);
  }

  lemma Sliced(rest: seq<Byte>, more: seq<Byte>, n: nat)
    requires n <= |rest|
    ensures (rest + more)[..n] == rest[..n] && (rest + more)[n..] == rest[n..] + more
  {
  }

  lemma StringFirm(b: seq<Byte>, more: seq<Byte>)
    ensures Same(ReadString(b), ReadString(b + more), more)
    ensures ReadString(b).Got? ==> Short(ReadString(b).value)
  {
    LengthFirm(b, more);
    match ReadLength(b)
    case Got(n, rest) => if n <= |rest| { Sliced(rest, more, n); }
    case Fail =>
  }

  lemma VarcharFirm(max: nat, b: seq<Byte>, more: seq<Byte>)
    ensures Same(ReadVarchar(max)(b), ReadVarchar(max)(b + more), more)
    ensures ReadVarchar(max)(b).Got? ==> |ReadVarchar(max)(b).value| <= max
  {
    LengthFirm(b, more);
    match ReadLength(b)
    case Got(n, rest) => if n <= |rest| { Sliced(rest, more, n); }
    case Fail =>
  }

  lemma OptionFirm<T(!new)>(read: seq<Byte> -> Read<T>, ok: T -> bool, b: seq<Byte>, more: seq<Byte>)
    requires Firm(read, ok)
    ensures Same(ReadOption(read, b), ReadOption(read, b + more), more)
    ensures ReadOption(read, b).Got? && ReadOption(read, b).value.Some? ==> ok(ReadOption(read, b).value.value)
  {
    BoolFirm(b, more);
    match ReadBool(b)
    case Got(true, rest) => assert Same(read(rest), read(rest + more), more);
    case _ =>
  }

  lemma {:induction false} ItemsFirm<T(!new)>(read: seq<Byte> -> Read<T>, ok: T -> bool, n: nat, b: seq<Byte>, more: seq<Byte>)
    requires Firm(read, ok)
    ensures Same(ReadItems(read, n, b), ReadItems(read, n, b + more), more)
    ensures ReadItems(read, n, b).Got? ==>
              |ReadItems(read, n, b).value| == n && forall i :: 0 <= i < n ==> ok(ReadItems(read, n, b).value[i])
    decreases n
  {
    if n > 0 && read(b).Got? {
      assert Same(read(b), read(b + more), more);
      ItemsFirm(read, ok, n - 1, read(b).rest, more);
    } else {
      assert Same(read(b), read(b + more), more);
    }
  }

  lemma ArrayFirm<T(!new)>(read: seq<Byte> -> Read<T>, ok: T -> bool, b: seq<Byte>, more: seq<Byte>)
    requires Firm(read, ok)
    ensures Same(ReadArray(read, b), ReadArray(read, b + more), more)
    ensures ReadArray(read, b).Got? ==>
              |ReadArray(read, b).value| <= MAX_LENGTH && forall i :: 0 <= i < |ReadArray(read, b).value| ==> ok(ReadArray(read, b).value[i])
  {
    LengthFirm(b, more);
    match ReadLength(b)
    case Got(n, rest) => ItemsFirm(read, ok, n, rest, more);
    case Fail =>
  }

  lemma {:induction false} PairsFirm<V(!new)>(read: seq<Byte> -> Read<V>, ok: V -> bool, n: nat, b: seq<Byte>, more: seq<Byte>, found: map<I32, V>)
    requires Firm(read, ok) && forall k :: k in found ==> ok(found[k])
    ensures Same(ReadPairs(read, n, b, found), ReadPairs(read, n, b + more, found), more)
    ensures ReadPairs(read, n, b, found).Got? ==>
              var m := ReadPairs(read, n, b, found).value;
              |m| <= |found| + n && forall k :: k in m ==> ok(m[k])
    decreases n
  {
    if n > 0 {
      I32Firm(b, more);
      match ReadI32(b) {
        case Got(k, rest) =>
          assert Same(read(rest), read(rest + more), more);
          if read(rest).Got? {
            PairsFirm(read, ok, n - 1, read(rest).rest, more, found[k := read(rest).value]);
          }
        case Fail =>
      }
    }
  }

  lemma MapFirm<V(!new)>(read: seq<Byte> -> Read<V>, ok: V -> bool, b: seq<Byte>, more: seq<Byte>)
    requires Firm(read, ok)
    ensures Same(ReadMap(read, b), ReadMap(read, b + more), more)
    ensures ReadMap(read, b).Got? ==>
              |ReadMap(read, b).value| <= MAX_LENGTH && forall k :: k in ReadMap(read, b).value ==> ok(ReadMap(read, b).value[k])
  {
    LengthFirm(b, more);
    match ReadLength(b)
    case Got(n, rest) => PairsFirm(read, ok, n, rest, more, map[]);
    case Fail =>
  }

  // ---- Values ----

  lemma RoomIdFirm(b: seq<Byte>, more: seq<Byte>)
    ensures Same(ReadRoomId(b), ReadRoomId(b + more), more)
    ensures ReadRoomId(b).Got? ==> ValidRoomId(ReadRoomId(b).value)
  {
    StringFirm(b, more);
  }

  lemma PointFirm(b: seq<Byte>, more: seq<Byte>)
    ensures Same(ReadPoint(b), ReadPoint(b + more), more)
  {
    I8Firm(b, more);
    if ReadI8(b).Got? {
      var b1 := ReadI8(b).rest;
      U16Firm(b1, more);
      if ReadU16(b1).Got? {
        U16Firm(ReadU16(b1).rest, more);
      }
    }
  }

  predicate Any<T>(v: T) {
    true
  }

  lemma FrameFirm(b: seq<Byte>, more: seq<Byte>)
    ensures Same(ReadFrame(b), ReadFrame(b + more), more)
    ensures ReadFrame(b).Got? ==> FrameOk(ReadFrame(b).value)
  {
    U32Firm(b, more);
    if ReadU32(b).Got? {
      forall b', more' ensures Same(ReadPoint(b'), ReadPoint(b' + more'), more') {
        PointFirm(b', more');
      }
      ArrayFirm(ReadPoint, Any, ReadU32(b).rest, more);
    }
  }

  lemma FramesFirm(b: seq<Byte>, more: seq<Byte>)
    ensures Same(ReadArray(ReadFrame, b), ReadArray(ReadFrame, b + more), more)
    ensures ReadArray(ReadFrame, b).Got? ==> FramesOk(ReadArray(ReadFrame, b).value)
  {
    forall b', more' ensures Same(ReadFrame(b'), ReadFrame(b' + more'), more') && (ReadFrame(b').Got? ==> FrameOk(ReadFrame(b').value)) {
      FrameFirm(b', more');
    }
    ArrayFirm(ReadFrame, FrameOk, b, more);
  }

  lemma JudgeFirm(b: seq<Byte>, more: seq<Byte>)
    ensures Same(ReadJudge(b), ReadJudge(b + more), more)
  {
    U32Firm(b, more);
    if ReadU32(b).Got? {
      var b1 := ReadU32(b).rest;
      U32Firm(b1, more);
      if ReadU32(b1).Got? {
        var b2 := ReadU32(b1).rest;
        U32Firm(b2, more);
        if ReadU32(b2).Got? {
          U8Firm(ReadU32(b2).rest, more);
        }
      }
    }
  }

  lemma JudgesFirm(b: seq<Byte>, more: seq<Byte>)
    ensures Same(ReadArray(ReadJudge, b), ReadArray(ReadJudge, b + more), more)
    ensures ReadArray(ReadJudge, b).Got? ==> |ReadArray(ReadJudge, b).value| <= MAX_LENGTH
  {
    forall b', more' ensures Same(ReadJudge(b'), ReadJudge(b' + more'), more') {
      JudgeFirm(b', more');
    }
    ArrayFirm(ReadJudge, Any, b, more);
  }

  predicate UserOk(u: UserInfo) {
    Short(u.name)
  }

  lemma UserFirm(b: seq<Byte>, more: seq<Byte>)
    ensures Same(ReadUser(b), ReadUser(b + more), more)
    ensures ReadUser(b).Got? ==> UserOk(ReadUser(b).value)
  {
    I32Firm(b, more);
    if ReadI32(b).Got? {
      var b1 := ReadI32(b).rest;
      StringFirm(b1, more);
      if ReadString(b1).Got? {
        BoolFirm(ReadString(b1).rest, more);
      }
    }
  }

  lemma UsersFirm()
    ensures Firm(ReadUser, UserOk)
  {
    forall b, more ensures Same(ReadUser(b), ReadUser(b + more), more) && (ReadUser(b).Got? ==> UserOk(ReadUser(b).value)) {
      UserFirm(b, more);
    }
  }

  lemma RoomStateFirm(b: seq<Byte>, more: seq<Byte>)
    ensures Same(ReadRoomState(b), ReadRoomState(b + more), more)
  {
    U8Firm(b, more);
    if ReadU8(b).Got? && ReadU8(b).value == 0 {
      forall b', more' ensures Same(ReadI32(b'), ReadI32(b' + more'), more') {
        I32Firm(b', more');
      }
      OptionFirm(ReadI32, Any, ReadU8(b).rest, more);
    }
  }

  lemma FlagsFirm(b: seq<Byte>, more: seq<Byte>)
    ensures Same(ReadFlags(b), ReadFlags(b + more), more)
  {
    BoolFirm(b, more);
    if |b| >= 5 {
      assert (b + more)[1..] == b[1..] + more;
      BoolFirm(b[1..], more);
      BoolFirm(b[2..], more);
      BoolFirm(b[3..], more);
      BoolFirm(b[4..], more);
      assert b[1..][1..] == b[2..] && b[2..][1..] == b[3..] && b[3..][1..] == b[4..];
    }
  }

  lemma ClientRoomFirm(b: seq<Byte>, more: seq<Byte>)
    ensures Same(ReadClientRoom(b), ReadClientRoom(b + more), more)
    ensures ReadClientRoom(b).Got? ==> RoomOk(ReadClientRoom(b).value)
  {
    RoomIdFirm(b, more);
    if ReadRoomId(b).Got? {
      var b1 := ReadRoomId(b).rest;
      RoomStateFirm(b1, more);
      if ReadRoomState(b1).Got? {
        var b2 := ReadRoomState(b1).rest;
        FlagsFirm(b2, more);
        if ReadFlags(b2).Got? {
          UsersFirm();
          MapFirm(ReadUser, UserOk, ReadFlags(b2).rest, more);
        }
      }
    }
  }

  lemma JoinResponseFirm(b: seq<Byte>, more: seq<Byte>)
    ensures Same(ReadJoinResponse(b), ReadJoinResponse(b + more), more)
    ensures ReadJoinResponse(b).Got? ==> JoinOk(ReadJoinResponse(b).value)
  {
    RoomStateFirm(b, more);
    if ReadRoomState(b).Got? {
      var b1 := ReadRoomState(b).rest;
      UsersFirm();
      ArrayFirm(ReadUser, UserOk, b1, more);
      if ReadArray(ReadUser, b1).Got? {
        BoolFirm(ReadArray(ReadUser, b1).rest, more);
      }
    }
  }

  lemma AuthFirm(b: seq<Byte>, more: seq<Byte>)
    ensures Same(ReadAuth(b), ReadAuth(b + more), more)
    ensures ReadAuth(b).Got? ==> AuthOk(ReadAuth(b).value)
  {
    UserFirm(b, more);
    if ReadUser(b).Got? {
      forall b', more'
        ensures Same(ReadClientRoom(b'), ReadClientRoom(b' + more'), more') && (ReadClientRoom(b').Got? ==> RoomOk(ReadClientRoom(b').value))
      {
        ClientRoomFirm(b', more');
      }
      OptionFirm(ReadClientRoom, RoomOk, ReadUser(b).rest, more);
    }
  }

  lemma ResultFirm<T(!new)>(read: seq<Byte> -> Read<T>, ok: T -> bool, b: seq<Byte>, more: seq<Byte>)
    requires Firm(read, ok)
    ensures Same(ReadResult(read, b), ReadResult(read, b + more), more)
    ensures ReadResult(read, b).Got? ==>
              match ReadResult(read, b).value case Ok(v) => ok(v) case Err(e) => Short(e)
  {
    BoolFirm(b, more);
    if ReadBool(b).Got? {
      var b1 := ReadBool(b).rest;
      assert Same(read(b1), read(b1 + more), more);
      StringFirm(b1, more);
    }
  }

  // ---- Messages and commands ----

  lemma NameFirm(b: seq<Byte>, more: seq<Byte>)
    ensures Same(ReadI32(b), ReadI32(b + more), more)
    ensures ReadI32(b).Got? ==>
              var b1 := ReadI32(b).rest;
              Same(ReadString(b1), ReadString(b1 + more), more) && (ReadString(b1).Got? ==> Short(ReadString(b1).value))
  {
    I32Firm(b, more);
    if ReadI32(b).Got? {
      StringFirm(ReadI32(b).rest, more);
    }
  }

  lemma ChartMessageFirm(b: seq<Byte>, more: seq<Byte>)
    ensures Same(ReadMessageBody(5, b), ReadMessageBody(5, b + more), more)
    ensures ReadMessageBody(5, b).Got? ==> MessageOk(ReadMessageBody(5, b).value)
  {
    NameFirm(b, more);
    if ReadI32(b).Got? && ReadString(ReadI32(b).rest).Got? {
      I32Firm(ReadString(ReadI32(b).rest).rest, more);
    }
  }

  lemma PlayedMessageFirm(b: seq<Byte>, more: seq<Byte>)
    ensures Same(ReadMessageBody(11, b), ReadMessageBody(11, b + more), more)
  {
    I32Firm(b, more);
    if ReadI32(b).Got? {
      var b1 := ReadI32(b).rest;
      I32Firm(b1, more);
      if ReadI32(b1).Got? {
        var b2 := ReadI32(b1).rest;
        U32Firm(b2, more);
        if ReadU32(b2).Got? {
          BoolFirm(ReadU32(b2).rest, more);
        }
      }
    }
  }

  lemma MessageBodyFirm(tag: Byte, b: seq<Byte>, more: seq<Byte>)
    ensures Same(ReadMessageBody(tag, b), ReadMessageBody(tag, b + more), more)
    ensures ReadMessageBody(tag, b).Got? ==> MessageOk(ReadMessageBody(tag, b).value)
  {
    if tag == 5 {
      ChartMessageFirm(b, more);
    } else if tag == 11 {
      PlayedMessageFirm(b, more);
    } else if tag == 14 || tag == 15 {
      BoolFirm(b, more);
    } else if tag == 0 || tag == 2 || tag == 3 {
      NameFirm(b, more);
    } else {
      I32Firm(b, more);
    }
  }

  lemma MessageFirm(b: seq<Byte>, more: seq<Byte>)
    ensures Same(ReadMessage(b), ReadMessage(b + more), more)
    ensures ReadMessage(b).Got? ==> MessageOk(ReadMessage(b).value)
  {
    U8Firm(b, more);
    if b != [] {
      MessageBodyFirm(b[0], b[1..], more);
    }
  }

  lemma JoinCommandFirm(b: seq<Byte>, more: seq<Byte>)
    ensures Same(DecodeClientBody(6, b), DecodeClientBody(6, b + more), more)
    ensures DecodeClientBody(6, b).Got? ==> ClientOk(DecodeClientBody(6, b).value)
  {
    RoomIdFirm(b, more);
    if ReadRoomId(b).Got? {
      BoolFirm(ReadRoomId(b).rest, more);
    }
  }

  lemma ClientBodyFirm(tag: Byte, b: seq<Byte>, more: seq<Byte>)
    ensures Same(DecodeClientBody(tag, b), DecodeClientBody(tag, b + more), more)
    ensures DecodeClientBody(tag, b).Got? ==> ClientOk(DecodeClientBody(tag, b).value)
  {
    match tag
    case 1 => VarcharFirm(MAX_TOKEN, b, more);
    case 2 => VarcharFirm(MAX_CHAT, b, more);
    case 3 => FramesFirm(b, more);
    case 4 => JudgesFirm(b, more);
    case 5 => RoomIdFirm(b, more);
    case 6 => JoinCommandFirm(b, more);
    case _ => BoolFirm(b, more); I32Firm(b, more);
  }

  /** Whatever the bytes: what a client's decoder yields is well formed, and more bytes behind it do not matter. */
  lemma ClientFirm(b: seq<Byte>, more: seq<Byte>)
    ensures DecodeClient(b).Got? ==> ClientOk(DecodeClient(b).value) && DecodeClient(b + more) == Got(DecodeClient(b).value, DecodeClient(b).rest + more)
  {
    U8Firm(b, more);
    if b != [] {
      ClientBodyFirm(b[0], b[1..], more);
    }
  }

  lemma UnitFirm(b: seq<Byte>, more: seq<Byte>)
    ensures Same(ReadResult(ReadUnit, b), ReadResult(ReadUnit, b + more), more)
    ensures ReadResult(ReadUnit, b).Got? ==> UnitOk(ReadResult(ReadUnit, b).value)
  {
    ResultFirm(ReadUnit, Any, b, more);
  }

  lemma AuthResultFirm(b: seq<Byte>, more: seq<Byte>)
    ensures Same(DecodeServerBody(1, b), DecodeServerBody(1, b + more), more)
    ensures DecodeServerBody(1, b).Got? ==> ServerOk(DecodeServerBody(1, b).value)
  {
    forall b', more' ensures Same(ReadAuth(b'), ReadAuth(b' + more'), more') && (ReadAuth(b').Got? ==> AuthOk(ReadAuth(b').value)) {
      AuthFirm(b', more');
    }
    ResultFirm(ReadAuth, AuthOk, b, more);
  }

  lemma JoinResultFirm(b: seq<Byte>, more: seq<Byte>)
    ensures Same(DecodeServerBody(9, b), DecodeServerBody(9, b + more), more)
    ensures DecodeServerBody(9, b).Got? ==> ServerOk(DecodeServerBody(9, b).value)
  {
    forall b', more'
      ensures Same(ReadJoinResponse(b'), ReadJoinResponse(b' + more'), more') && (ReadJoinResponse(b').Got? ==> JoinOk(ReadJoinResponse(b').value))
    {
      JoinResponseFirm(b', more');
    }
    ResultFirm(ReadJoinResponse, JoinOk, b, more);
  }

  lemma PlayFirm(tag: Byte, b: seq<Byte>, more: seq<Byte>)
    requires tag == 3 || tag == 4
    ensures Same(DecodeServerBody(tag, b), DecodeServerBody(tag, b + more), more)
    ensures DecodeServerBody(tag, b).Got? ==> ServerOk(DecodeServerBody(tag, b).value)
  {
    I32Firm(b, more);
    if ReadI32(b).Got? {
      FramesFirm(ReadI32(b).rest, more);
      JudgesFirm(ReadI32(b).rest, more);
    }
  }

  lemma UnitReplyFirm(tag: Byte, b: seq<Byte>, more: seq<Byte>)
    requires IsUnitTag(tag)
    ensures Same(DecodeServerBody(tag, b), DecodeServerBody(tag, b + more), more)
    ensures DecodeServerBody(tag, b).Got? ==> ServerOk(DecodeServerBody(tag, b).value)
  {
    UnitFirm(b, more);
  }

  lemma ServerBodyFirm(tag: Byte, b: seq<Byte>, more: seq<Byte>)
    ensures Same(DecodeServerBody(tag, b), DecodeServerBody(tag, b + more), more)
    ensures DecodeServerBody(tag, b).Got? ==> ServerOk(DecodeServerBody(tag, b).value)
  {
    if IsUnitTag(tag) {
      UnitReplyFirm(tag, b, more);
    } else {
      match tag
      case 1 => AuthResultFirm(b, more);
      case 3 => PlayFirm(tag, b, more);
      case 4 => PlayFirm(tag, b, more);
      case 5 => MessageFirm(b, more);
      case 6 => RoomStateFirm(b, more);
      case 7 => BoolFirm(b, more);
      case 9 => JoinResultFirm(b, more);
      case 10 => UserFirm(b, more);
      case _ =>
    }
  }

  /** The same for a server's commands. */
  lemma ServerFirm(b: seq<Byte>, more: seq<Byte>)
    ensures DecodeServer(b).Got? ==> ServerOk(DecodeServer(b).value) && DecodeServer(b + more) == Got(DecodeServer(b).value, DecodeServer(b).rest + more)
  {
    U8Firm(b, more);
    if b != [] {
      ServerBodyFirm(b[0], b[1..], more);
    }
  }

  // ---- What is refused ----

  /** No command is understood from less than all of its bytes. */
  lemma ClientTruncated(c: ClientCommand, n: nat)
    requires ClientOk(c) && n < |EncodeClient(c)|
    ensures DecodeClient(EncodeClient(c)[..n]) == Fail
  {
    hide *;
    var b := EncodeClient(c);
    assert b[..n] + b[n..] == b && b + [] == b;
    ClientFirm(b[..n], b[n..]);
    ClientRoundTrip(c, []);
  }

  lemma ServerTruncated(c: ServerCommand, n: nat)
    requires ServerOk(c) && n < |EncodeServer(c)|
    ensures DecodeServer(EncodeServer(c)[..n]) == Fail
  {
    hide *;
    var b := EncodeServer(c);
    assert b[..n] + b[n..] == b && b + [] == b;
    ServerFirm(b[..n], b[n..]);
    ServerRoundTrip(c, []);
  }

  /** A tag nobody has assigned is refused whatever follows. */
  lemma UnknownTags(b: seq<Byte>)
    requires b != []
    ensures b[0] > 15 ==> DecodeClient(b) == Fail && ReadMessage(b) == Fail
    ensures b[0] > 19 ==> DecodeServer(b) == Fail
  {
  }

  /** A token, chat text or room ID that is not admitted is refused, whatever follows. */
  lemma ImproperRefused(c: ClientCommand, rest: seq<Byte>)
    requires match c
             case CmdAuthenticate(token) => Short(token)
             case CmdChat(message) => Short(message)
             case CmdCreateRoom(id) => Short(id)
             case CmdJoinRoom(id, _) => Short(id)
             case _ => false
    ensures DecodeClient(EncodeClient(c) + rest).Got? <==> ClientOk(c)
  {
    if ClientOk(c) {
      ClientRoundTrip(c, rest);
    } else {
      TextRefused(c, rest);
    }
  }

  function TextOf(c: ClientCommand): Text {
    match c
    case CmdAuthenticate(token) => token
    case CmdChat(message) => message
    case CmdCreateRoom(id) => id
    case CmdJoinRoom(id, _) => id
    case _ => []
  }

  lemma TextRefused(c: ClientCommand, rest: seq<Byte>)
    requires c.CmdAuthenticate? || c.CmdChat? || c.CmdCreateRoom? || c.CmdJoinRoom?
    requires !ClientOk(c) && Short(TextOf(c))
    ensures DecodeClient(EncodeClient(c) + rest) == Fail
  {
    hide *;
    var tail := Behind(c, rest);
    BodyRead(c, rest);
    TagRead(c, rest);
    BodyRefused(c, tail);
  }

  /** What follows the text. */
  function Behind(c: ClientCommand, rest: seq<Byte>): seq<Byte> {
    if c.CmdJoinRoom? then PutBool(c.monitor) + rest else rest
  }

  lemma TagRead(c: ClientCommand, rest: seq<Byte>)
    ensures DecodeClient(EncodeClient(c) + rest) == DecodeClientBody(ClientTag(c), ClientBody(c) + rest)
  {
    hide ClientBody, DecodeClientBody, ClientTag;
    assert (EncodeClient(c) + rest)[1..] == ClientBody(c) + rest;
  }

  lemma BodyRead(c: ClientCommand, rest: seq<Byte>)
    requires c.CmdAuthenticate? || c.CmdChat? || c.CmdCreateRoom? || c.CmdJoinRoom?
    ensures ClientBody(c) + rest == PutString(TextOf(c)) + Behind(c, rest)
  {
    hide PutString;
  }

  lemma BodyRefused(c: ClientCommand, tail: seq<Byte>)
    requires c.CmdAuthenticate? || c.CmdChat? || c.CmdCreateRoom? || c.CmdJoinRoom?
    requires !ClientOk(c) && Short(TextOf(c))
    ensures DecodeClientBody(ClientTag(c), PutString(TextOf(c)) + tail) == Fail
  {
    var text := TextOf(c);
    if c.CmdAuthenticate? || c.CmdChat? {
      VarcharRefused(if c.CmdChat? then MAX_CHAT else MAX_TOKEN, text, tail);
    } else {
      StringYields(text);
      assert ReadString(PutString(text) + tail) == Got(text, tail);
    }
  }

  lemma VarcharRefused(max: nat, text: Text, tail: seq<Byte>)
    requires Short(text) && |text| > max
    ensures ReadVarchar(max)(PutString(text) + tail) == Fail
  {
    assert PutString(text) + tail == PutUleb(|text|) + (text + tail);
    LengthYields(|text|);
    assert ReadLength(PutUleb(|text|) + (text + tail)) == Got(|text|, text + tail);
  }
}
