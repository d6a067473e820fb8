/**
 The protocol's tagged unions: messages, client commands and server commands, with their
 encoders and decoders. Tags and field order are those of the wire format. Touch coordinates
 are binary32 patterns in memory and binary16 on the wire.
 */
module Commands {
  import opened Basics
  import opened Wire
  import opened HalfFloat

  type Text = seq<Byte>

  datatype Pos = Pos(x: U32, y: U32)
  datatype TouchPoint = TouchPoint(id: I8, pos: Pos)
  datatype TouchFrame = TouchFrame(time: U32, points: seq<TouchPoint>)
  datatype JudgeEvent = JudgeEvent(time: U32, line: U32, note: U32, judgement: Byte)
  datatype UserInfo = UserInfo(id: I32, name: Text, monitor: bool)

  datatype RoomState = ChoosingChart(chart: Option<I32>) | WaitingForReady | InPlay

  datatype ClientRoomState = ClientRoomState(
    id: Text, state: RoomState, live: bool, locked: bool, cycle: bool, isHost: bool, isReady: bool, users: map<I32, UserInfo>)

  datatype JoinRoomResponse = JoinRoomResponse(state: RoomState, users: seq<UserInfo>, live: bool)
  datatype AuthInfo = AuthInfo(me: UserInfo, room: Option<ClientRoomState>)
  datatype StringResult<T> = Ok(value: T) | Err(error: Text)

  datatype Message =
    | MsgChat(user: I32, content: Text)
    | MsgCreateRoom(user: I32)
    | MsgJoinRoom(user: I32, name: Text)
    | MsgLeaveRoom(user: I32, name: Text)
    | MsgNewHost(user: I32)
    | MsgSelectChart(user: I32, name: Text, id: I32)
    | MsgGameStart(user: I32)
    | MsgReady(user: I32)
    | MsgCancelReady(user: I32)
    | MsgCancelGame(user: I32)
    | MsgStartPlaying
    | MsgPlayed(user: I32, score: I32, accuracy: U32, fullCombo: bool)
    | MsgGameEnd
    | MsgAbort(user: I32)
    | MsgLockRoom(lock: bool)
    | MsgCycleRoom(cycle: bool)

  datatype ClientCommand =
    | CmdPing
    | CmdAuthenticate(token: Text)
    | CmdChat(message: Text)
    | CmdTouches(frames: seq<TouchFrame>)
    | CmdJudges(judges: seq<JudgeEvent>)
    | CmdCreateRoom(id: Text)
    | CmdJoinRoom(id: Text, monitor: bool)
    | CmdLeaveRoom
    | CmdLockRoom(lock: bool)
    | CmdCycleRoom(cycle: bool)
    | CmdSelectChart(chart: I32)
    | CmdRequestStart
    | CmdReady
    | CmdCancelReady
    | CmdPlayed(record: I32)
    | CmdAbort

  datatype ServerCommand =
    | SrvPong
    | SrvAuthenticate(auth: StringResult<AuthInfo>)
    | SrvChat(result: StringResult<()>)
    | SrvTouches(player: I32, frames: seq<TouchFrame>)
    | SrvJudges(player: I32, judges: seq<JudgeEvent>)
    | SrvMessage(message: Message)
    | SrvChangeState(state: RoomState)
    | SrvChangeHost(isHost: bool)
    | SrvCreateRoom(result: StringResult<()>)
    | SrvJoinRoom(join: StringResult<JoinRoomResponse>)
    | SrvOnJoinRoom(info: UserInfo)
    | SrvLeaveRoom(result: StringResult<()>)
    | SrvLockRoom(result: StringResult<()>)
    | SrvCycleRoom(result: StringResult<()>)
    | SrvSelectChart(result: StringResult<()>)
    | SrvRequestStart(result: StringResult<()>)
    | SrvReady(result: StringResult<()>)
    | SrvCancelReady(result: StringResult<()>)
    | SrvPlayed(result: StringResult<()>)
    | SrvAbort(result: StringResult<()>)

  // ---- Room IDs ----

  predicate RoomIdByte(b: Byte) {
    b == 0x2D || b == 0x5F || 0x30 <= b <= 0x39 || 0x41 <= b <= 0x5A || 0x61 <= b <= 0x7A
  }

  /** One to twenty letters, digits, hyphens and underscores. */
  predicate ValidRoomId(s: Text) {
    1 <= |s| <= 20 && forall i :: 0 <= i < |s| ==> RoomIdByte(s[i])
  }

  method ParseRoomID(s: Text) returns (ok: bool)
    ensures ok <==> ValidRoomId(s)
  {
    if |s| == 0 || |s| > 20 { return false; }
    for i := 0 to |s|
      invariant forall j :: 0 <= j < i ==> RoomIdByte(s[j])
    {
      if !RoomIdByte(s[i]) { return false; }
    }
    return true;
  }

  function ReadRoomId(b: seq<Byte>): Read<Text> {
    match ReadString(b) case Fail => Fail case Got(s, rest) => if ValidRoomId(s) then Got(s, rest) else Fail
  }

  // ---- Values ----

  function PutPos(p: Pos): seq<Byte> {
    PutU16(F32ToF16(p.x)) + PutU16(F32ToF16(p.y))
  }

  function ReadPos(b: seq<Byte>): Read<Pos> {
    var (x, b) :- ReadU16(b);
    var (y, b) :- ReadU16(b);
    Got(Pos(F16ToF32(x), F16ToF32(y)), b)
  }

  function PutPoint(p: TouchPoint): seq<Byte> {
    PutI8(p.id) + PutPos(p.pos)
  }

  function ReadPoint(b: seq<Byte>): Read<TouchPoint> {
    var (id, b) :- ReadI8(b);
    var (pos, b) :- ReadPos(b);
    Got(TouchPoint(id, pos), b)
  }

  function PutFrame(f: TouchFrame): seq<Byte> {
    PutU32(f.time) + PutArray(PutPoint, f.points)
  }

  function ReadFrame(b: seq<Byte>): Read<TouchFrame> {
    var (time, b) :- ReadU32(b);
    var (points, b) :- ReadArray(ReadPoint, b);
    Got(TouchFrame(time, points), b)
  }

  function PutJudge(j: JudgeEvent): seq<Byte> {
    PutU32(j.time) + (PutU32(j.line) + (PutU32(j.note) + [j.judgement]))
  }

  function ReadJudge(b: seq<Byte>): Read<JudgeEvent> {
    var (time, b) :- ReadU32(b);
    var (line, b) :- ReadU32(b);
    var (note, b) :- ReadU32(b);
    var (judgement, b) :- ReadU8(b);
    Got(JudgeEvent(time, line, note, judgement), b)
  }

  function PutUser(u: UserInfo): seq<Byte> {
    PutI32(u.id) + (PutString(u.name) + PutBool(u.monitor))
  }

  function ReadUser(b: seq<Byte>): Read<UserInfo> {
    var (id, b) :- ReadI32(b);
    var (name, b) :- ReadString(b);
    var (monitor, b) :- ReadBool(b);
    Got(UserInfo(id, name, monitor), b)
  }

  function PutRoomState(s: RoomState): seq<Byte> {
    match s
    case ChoosingChart(chart) => [0] + PutOption(PutI32, chart)
    case WaitingForReady => [1]
    case InPlay => [2]
  }

  function ReadRoomState(b: seq<Byte>): Read<RoomState> {
    var (tag, b) :- ReadU8(b);
    match tag
    case 0 => var (chart, b) :- ReadOption(ReadI32, b); Got(ChoosingChart(chart), b)
    case 1 => Got(WaitingForReady, b)
    case 2 => Got(InPlay, b)
    case _ => Fail
  }

  datatype Flags = Flags(live: bool, locked: bool, cycle: bool, isHost: bool, isReady: bool)

  function FlagsOf(c: ClientRoomState): Flags {
    Flags(c.live, c.locked, c.cycle, c.isHost, c.isReady)
  }

  function PutFlags(f: Flags): seq<Byte> {
    PutBool(f.live) + (PutBool(f.locked) + (PutBool(f.cycle) + (PutBool(f.isHost) + PutBool(f.isReady))))
  }

  function ReadFlags(b: seq<Byte>): Read<Flags> {
    var (live, b) :- ReadBool(b);
    var (locked, b) :- ReadBool(b);
    var (cycle, b) :- ReadBool(b);
    var (isHost, b) :- ReadBool(b);
    var (isReady, b) :- ReadBool(b);
    Got(Flags(live, locked, cycle, isHost, isReady), b)
  }

  ghost function PutClientRoom(c: ClientRoomState): seq<Byte> {
    PutString(c.id) + (PutRoomState(c.state) + (PutFlags(FlagsOf(c)) + PutMap(PutUser, c.users)))
  }

  function ReadClientRoom(b: seq<Byte>): Read<ClientRoomState> {
    var (id, b) :- ReadRoomId(b);
    var (state, b) :- ReadRoomState(b);
    var (f, b) :- ReadFlags(b);
    var (users, b) :- ReadMap(ReadUser, b);
    Got(ClientRoomState(id, state, f.live, f.locked, f.cycle, f.isHost, f.isReady, users), b)
  }

  function PutJoinResponse(j: JoinRoomResponse): seq<Byte> {
    PutRoomState(j.state) + (PutArray(PutUser, j.users) + PutBool(j.live))
  }

  function ReadJoinResponse(b: seq<Byte>): Read<JoinRoomResponse> {
    var (state, b) :- ReadRoomState(b);
    var (users, b) :- ReadArray(ReadUser, b);
    var (live, b) :- ReadBool(b);
    Got(JoinRoomResponse(state, users, live), b)
  }

  ghost function PutAuth(a: AuthInfo): seq<Byte> {
    PutUser(a.me) + PutOption(PutClientRoom, a.room)
  }

  function ReadAuth(b: seq<Byte>): Read<AuthInfo> {
    var (me, b) :- ReadUser(b);
    var (room, b) :- ReadOption(ReadClientRoom, b);
    Got(AuthInfo(me, room), b)
  }

  ghost function PutResult<T>(put: T -> seq<Byte>, r: StringResult<T>): seq<Byte> {
    match r
    case Ok(v) => PutBool(true) + put(v)
    case Err(e) => PutBool(false) + PutString(e)
  }

  function ReadResult<T>(read: seq<Byte> -> Read<T>, b: seq<Byte>): Read<StringResult<T>> {
    var (ok, b) :- ReadBool(b);
    if ok then var (v, b) :- read(b); Got(Ok(v), b)
    else var (e, b) :- ReadString(b); Got(Err(e), b)
  }

  function PutUnit(u: ()): seq<Byte> { [] }

  function ReadUnit(b: seq<Byte>): Read<()> { Got((), b) }

  // ---- What comes back: coordinates in binary16 precision, everything else as it was ----

  function NormPos(p: Pos): Pos {
    Pos(F16ToF32(F32ToF16(p.x)), F16ToF32(F32ToF16(p.y)))
  }

  function NormPoint(p: TouchPoint): TouchPoint {
    p.(pos := NormPos(p.pos))
  }

  function NormFrame(f: TouchFrame): TouchFrame {
    f.(points := seq(|f.points|, i requires 0 <= i < |f.points| => NormPoint(f.points[i])))
  }

  function NormFrames(fs: seq<TouchFrame>): seq<TouchFrame> {
    seq(|fs|, i requires 0 <= i < |fs| => NormFrame(fs[i]))
  }

  predicate Short(s: Text) {
    |s| <= MAX_LENGTH
  }

  predicate FrameOk(f: TouchFrame) {
    |f.points| <= MAX_LENGTH
  }

  predicate FramesOk(fs: seq<TouchFrame>) {
    |fs| <= MAX_LENGTH && forall i :: 0 <= i < |fs| ==> FrameOk(fs[i])
  }

  lemma PosRead(p: Pos, rest: seq<Byte>)
    ensures ReadPos(PutPos(p) + rest) == Got(NormPos(p), rest)
  {
  }

  lemma PointRead(p: TouchPoint, rest: seq<Byte>)
    ensures ReadPoint(PutPoint(p) + rest) == Got(NormPoint(p), rest)
  {
    assert PutPoint(p) + rest == PutI8(p.id) + (PutPos(p.pos) + rest);
    I8Yields(p.id);
    assert ReadI8(PutI8(p.id) + (PutPos(p.pos) + rest)) == Got(p.id, PutPos(p.pos) + rest);
    PosRead(p.pos, rest);
  }

  lemma PointYields(p: TouchPoint)
    ensures Yields(ReadPoint, PutPoint(p), NormPoint(p))
  {
    forall rest ensures ReadPoint(PutPoint(p) + rest) == Got(NormPoint(p), rest) {
      PointRead(p, rest);
    }
  }

  lemma FrameRead(f: TouchFrame, rest: seq<Byte>)
    requires FrameOk(f)
    ensures ReadFrame(PutFrame(f) + rest) == Got(NormFrame(f), rest)
  {
    var tail := PutArray(PutPoint, f.points) + rest;
    assert PutFrame(f) + rest == PutU32(f.time) + tail;
    U32Yields(f.time);
    assert ReadU32(PutU32(f.time) + tail) == Got(f.time, tail);
    forall i | 0 <= i < |f.points|
      ensures Yields(ReadPoint, PutPoint(f.points[i]), NormFrame(f).points[i])
    {
      PointYields(f.points[i]);
    }
    ArrayRead(PutPoint, ReadPoint, f.points, NormFrame(f).points, rest);
  }

  lemma FramesRead(fs: seq<TouchFrame>, rest: seq<Byte>)
    requires FramesOk(fs)
    ensures ReadArray(ReadFrame, PutArray(PutFrame, fs) + rest) == Got(NormFrames(fs), rest)
  {
    forall i | 0 <= i < |fs|
      ensures Yields(ReadFrame, PutFrame(fs[i]), NormFrames(fs)[i])
    {
      forall rest' ensures ReadFrame(PutFrame(fs[i]) + rest') == Got(NormFrame(fs[i]), rest') {
        FrameRead(fs[i], rest');
      }
    }
    ArrayRead(PutFrame, ReadFrame, fs, NormFrames(fs), rest);
  }

  lemma JudgeRead(j: JudgeEvent, rest: seq<Byte>)
    ensures ReadJudge(PutJudge(j) + rest) == Got(j, rest)
  {
    var b3 := [j.judgement] + rest;
    var b2 := PutU32(j.note) + b3;
    var b1 := PutU32(j.line) + b2;
    assert PutJudge(j) + rest == PutU32(j.time) + b1;
    U32Yields(j.time);
    U32Yields(j.line);
    U32Yields(j.note);
    assert ReadU32(PutU32(j.time) + b1) == Got(j.time, b1) && ReadU32(b1) == Got(j.line, b2) && ReadU32(b2) == Got(j.note, b3);
    assert b3[1..] == rest;
  }

  lemma JudgesRead(js: seq<JudgeEvent>, rest: seq<Byte>)
    requires |js| <= MAX_LENGTH
    ensures ReadArray(ReadJudge, PutArray(PutJudge, js) + rest) == Got(js, rest)
  {
    forall i | 0 <= i < |js|
      ensures Yields(ReadJudge, PutJudge(js[i]), js[i])
    {
      forall rest' ensures ReadJudge(PutJudge(js[i]) + rest') == Got(js[i], rest') {
        JudgeRead(js[i], rest');
      }
    }
    ArrayRead(PutJudge, ReadJudge, js, js, rest);
  }

  lemma RoomIdRead(s: Text, rest: seq<Byte>)
    requires ValidRoomId(s)
    ensures ReadRoomId(PutString(s) + rest) == Got(s, rest)
  {
    StringYields(s);
  }

  lemma UserRead(u: UserInfo, rest: seq<Byte>)
    requires Short(u.name)
    ensures ReadUser(PutUser(u) + rest) == Got(u, rest)
  {
    var b2 := PutBool(u.monitor) + rest;
    var b1 := PutString(u.name) + b2;
    assert PutUser(u) + rest == PutI32(u.id) + b1;
    I32Yields(u.id);
    StringYields(u.name);
    BoolYields(u.monitor);
    assert ReadI32(PutI32(u.id) + b1) == Got(u.id, b1) && ReadString(b1) == Got(u.name, b2);
  }

  lemma UserYields(u: UserInfo)
    requires Short(u.name)
    ensures Yields(ReadUser, PutUser(u), u)
  {
    forall rest ensures ReadUser(PutUser(u) + rest) == Got(u, rest) {
      UserRead(u, rest);
    }
  }

  lemma RoomStateRead(s: RoomState, rest: seq<Byte>)
    ensures ReadRoomState(PutRoomState(s) + rest) == Got(s, rest)
  {
    var b := PutRoomState(s) + rest;
    match s
    case ChoosingChart(chart) =>
      assert b[1..] == PutOption(PutI32, chart) + rest;
      if chart.Some? { I32Yields(chart.value); }
      OptionRead(PutI32, ReadI32, chart, chart, rest);
    case WaitingForReady => assert b[1..] == rest;
    case InPlay => assert b[1..] == rest;
  }

  predicate RoomOk(c: ClientRoomState) {
    ValidRoomId(c.id) && |c.users| <= MAX_LENGTH && forall k :: k in c.users ==> Short(c.users[k].name)
  }

  // A field followed by more fields.

  lemma FlagThen(v: bool, more: seq<Byte>, rest: seq<Byte>)
    ensures ReadBool((PutBool(v) + more) + rest) == Got(v, more + rest)
  {
  }

  lemma NumberThen(n: I32, more: seq<Byte>, rest: seq<Byte>)
    ensures ReadI32((PutI32(n) + more) + rest) == Got(n, more + rest)
  {
    I32Yields(n);
    assert (PutI32(n) + more) + rest == PutI32(n) + (more + rest);
  }

  lemma BitsThen(n: U32, more: seq<Byte>, rest: seq<Byte>)
    ensures ReadU32((PutU32(n) + more) + rest) == Got(n, more + rest)
  {
    U32Yields(n);
    assert (PutU32(n) + more) + rest == PutU32(n) + (more + rest);
  }

  lemma TextThen(s: Text, more: seq<Byte>, rest: seq<Byte>)
    requires Short(s)
    ensures ReadString((PutString(s) + more) + rest) == Got(s, more + rest)
  {
    StringYields(s);
    assert (PutString(s) + more) + rest == PutString(s) + (more + rest);
  }

  lemma NumberRead(n: I32, rest: seq<Byte>)
    ensures ReadI32(PutI32(n) + rest) == Got(n, rest)
  {
    I32Yields(n);
  }

  lemma FlagRead(v: bool, rest: seq<Byte>)
    ensures ReadBool(PutBool(v) + rest) == Got(v, rest)
  {
  }

  lemma TextRead(s: Text, rest: seq<Byte>)
    requires Short(s)
    ensures ReadString(PutString(s) + rest) == Got(s, rest)
  {
    StringYields(s);
  }

  lemma FlagsRead(f: Flags, rest: seq<Byte>)
    ensures ReadFlags(PutFlags(f) + rest) == Got(f, rest)
  {
    var p4 := PutBool(f.isReady);
    var p3 := PutBool(f.isHost) + p4;
    var p2 := PutBool(f.cycle) + p3;
    var p1 := PutBool(f.locked) + p2;
    FlagThen(f.live, p1, rest);
    FlagThen(f.locked, p2, rest);
    FlagThen(f.cycle, p3, rest);
    FlagThen(f.isHost, p4, rest);
    FlagRead(f.isReady, rest);
  }

  lemma UsersRead(users: map<I32, UserInfo>, rest: seq<Byte>)
    requires |users| <= MAX_LENGTH && forall k :: k in users ==> Short(users[k].name)
    ensures ReadMap(ReadUser, PutMap(PutUser, users) + rest) == Got(users, rest)
  {
    forall k | k in users
      ensures Yields(ReadUser, PutUser(users[k]), users[k])
    {
      UserYields(users[k]);
    }
    MapRead(PutUser, ReadUser, users, users, rest);
  }

  lemma ClientRoomRead(c: ClientRoomState, rest: seq<Byte>)
    requires RoomOk(c)
    ensures ReadClientRoom(PutClientRoom(c) + rest) == Got(c, rest)
  {
    var b3 := PutMap(PutUser, c.users) + rest;
    var b2 := PutFlags(FlagsOf(c)) + b3;
    var b1 := PutRoomState(c.state) + b2;
    assert PutClientRoom(c) + rest == PutString(c.id) + b1;
    RoomIdRead(c.id, b1);
    RoomStateRead(c.state, b2);
    FlagsRead(FlagsOf(c), b3);
    UsersRead(c.users, rest);
  }

  predicate JoinOk(j: JoinRoomResponse) {
    |j.users| <= MAX_LENGTH && forall i :: 0 <= i < |j.users| ==> Short(j.users[i].name)
  }

  lemma JoinResponseRead(j: JoinRoomResponse, rest: seq<Byte>)
    requires JoinOk(j)
    ensures ReadJoinResponse(PutJoinResponse(j) + rest) == Got(j, rest)
  {
    var b2 := PutBool(j.live) + rest;
    var b1 := PutArray(PutUser, j.users) + b2;
    assert PutJoinResponse(j) + rest == PutRoomState(j.state) + b1;
    RoomStateRead(j.state, b1);
    forall i | 0 <= i < |j.users|
      ensures Yields(ReadUser, PutUser(j.users[i]), j.users[i])
    {
      UserYields(j.users[i]);
    }
    ArrayRead(PutUser, ReadUser, j.users, j.users, b2);
    BoolYields(j.live);
  }

  predicate AuthOk(a: AuthInfo) {
    Short(a.me.name) && (a.room.Some? ==> RoomOk(a.room.value))
  }

  lemma AuthRead(a: AuthInfo, rest: seq<Byte>)
    requires AuthOk(a)
    ensures ReadAuth(PutAuth(a) + rest) == Got(a, rest)
  {
    var b1 := PutOption(PutClientRoom, a.room) + rest;
    assert PutAuth(a) + rest == PutUser(a.me) + b1;
    UserRead(a.me, b1);
    if a.room.Some? {
      forall rest' ensures ReadClientRoom(PutClientRoom(a.room.value) + rest') == Got(a.room.value, rest') {
        ClientRoomRead(a.room.value, rest');
      }
    }
    OptionRead(PutClientRoom, ReadClientRoom, a.room, a.room, rest);
  }

  lemma ResultRead<T>(put: T -> seq<Byte>, read: seq<Byte> -> Read<T>, r: StringResult<T>, rest: seq<Byte>)
    requires match r case Ok(v) => read(put(v) + rest) == Got(v, rest) case Err(e) => Short(e)
    ensures ReadResult(read, PutResult(put, r) + rest) == Got(r, rest)
  {
    match r
    case Ok(v) =>
      BoolYields(true);
      assert PutResult(put, r) + rest == PutBool(true) + (put(v) + rest);
    case Err(e) =>
      BoolYields(false);
      StringYields(e);
      assert PutResult(put, r) + rest == PutBool(false) + (PutString(e) + rest);
  }

  predicate UnitOk(r: StringResult<()>) {
    r.Err? ==> Short(r.error)
  }

  lemma UnitRead(r: StringResult<()>, rest: seq<Byte>)
    requires UnitOk(r)
    ensures ReadResult(ReadUnit, PutResult(PutUnit, r) + rest) == Got(r, rest)
  {
    if r.Ok? {
      assert PutUnit(r.value) + rest == rest;
      assert r.value == ();
    }
    ResultRead(PutUnit, ReadUnit, r, rest);
  }

  // ---- Messages ----

  function MessageTag(m: Message): Byte {
    match m
    case MsgChat(_, _) => 0
    case MsgCreateRoom(_) => 1
    case MsgJoinRoom(_, _) => 2
    case MsgLeaveRoom(_, _) => 3
    case MsgNewHost(_) => 4
    case MsgSelectChart(_, _, _) => 5
    case MsgGameStart(_) => 6
    case MsgReady(_) => 7
    case MsgCancelReady(_) => 8
    case MsgCancelGame(_) => 9
    case MsgStartPlaying => 10
    case MsgPlayed(_, _, _, _) => 11
    case MsgGameEnd => 12
    case MsgAbort(_) => 13
    case MsgLockRoom(_) => 14
    case MsgCycleRoom(_) => 15
  }

  function MessageBody(m: Message): seq<Byte> {
    match m
    case MsgChat(user, content) => PutI32(user) + PutString(content)
    case MsgJoinRoom(user, name) => PutI32(user) + PutString(name)
    case MsgLeaveRoom(user, name) => PutI32(user) + PutString(name)
    case MsgSelectChart(user, name, id) => PutI32(user) + (PutString(name) + PutI32(id))
    case MsgPlayed(user, score, accuracy, fullCombo) => PutI32(user) + (PutI32(score) + (PutU32(accuracy) + PutBool(fullCombo)))
    case MsgStartPlaying => []
    case MsgGameEnd => []
    case MsgLockRoom(lock) => PutBool(lock)
    case MsgCycleRoom(cycle) => PutBool(cycle)
    case MsgCreateRoom(user) => PutI32(user)
    case MsgNewHost(user) => PutI32(user)
    case MsgGameStart(user) => PutI32(user)
    case MsgReady(user) => PutI32(user)
    case MsgCancelReady(user) => PutI32(user)
    case MsgCancelGame(user) => PutI32(user)
    case MsgAbort(user) => PutI32(user)
  }

  function PutMessage(m: Message): seq<Byte> {
    [MessageTag(m)] + MessageBody(m)
  }

  function ReadMessage(b: seq<Byte>): Read<Message> {
    var (tag, b) :- ReadU8(b);
    ReadMessageBody(tag, b)
  }

  function ReadMessageBody(tag: Byte, b: seq<Byte>): Read<Message> {
    match tag
    case 0 => var (user, b) :- ReadI32(b); var (content, b) :- ReadString(b); Got(MsgChat(user, content), b)
    case 1 => var (user, b) :- ReadI32(b); Got(MsgCreateRoom(user), b)
    case 2 => var (user, b) :- ReadI32(b); var (name, b) :- ReadString(b); Got(MsgJoinRoom(user, name), b)
    case 3 => var (user, b) :- ReadI32(b); var (name, b) :- ReadString(b); Got(MsgLeaveRoom(user, name), b)
    case 4 => var (user, b) :- ReadI32(b); Got(MsgNewHost(user), b)
    case 5 =>
      var (user, b) :- ReadI32(b);
      var (name, b) :- ReadString(b);
      var (id, b) :- ReadI32(b);
      Got(MsgSelectChart(user, name, id), b)
    case 6 => var (user, b) :- ReadI32(b); Got(MsgGameStart(user), b)
    case 7 => var (user, b) :- ReadI32(b); Got(MsgReady(user), b)
    case 8 => var (user, b) :- ReadI32(b); Got(MsgCancelReady(user), b)
    case 9 => var (user, b) :- ReadI32(b); Got(MsgCancelGame(user), b)
    case 10 => Got(MsgStartPlaying, b)
    case 11 =>
      var (user, b) :- ReadI32(b);
      var (score, b) :- ReadI32(b);
      var (accuracy, b) :- ReadU32(b);
      var (fullCombo, b) :- ReadBool(b);
      Got(MsgPlayed(user, score, accuracy, fullCombo), b)
    case 12 => Got(MsgGameEnd, b)
    case 13 => var (user, b) :- ReadI32(b); Got(MsgAbort(user), b)
    case 14 => var (lock, b) :- ReadBool(b); Got(MsgLockRoom(lock), b)
    case 15 => var (cycle, b) :- ReadBool(b); Got(MsgCycleRoom(cycle), b)
    case _ => Fail
  }

  predicate MessageOk(m: Message) {
    match m
    case MsgChat(_, content) => Short(content)
    case MsgJoinRoom(_, name) => Short(name)
    case MsgLeaveRoom(_, name) => Short(name)
    case MsgSelectChart(_, name, _) => Short(name)
    case _ => true
  }

  lemma NamedMessageRead(m: Message, rest: seq<Byte>)
    requires MessageOk(m) && (m.MsgChat? || m.MsgJoinRoom? || m.MsgLeaveRoom?)
    ensures ReadMessageBody(MessageTag(m), MessageBody(m) + rest) == Got(m, rest)
  {
    var name := match m case MsgChat(_, content) => content case MsgJoinRoom(_, name) => name case MsgLeaveRoom(_, name) => name;
    NumberThen(m.user, PutString(name), rest);
    TextRead(name, rest);
  }

  lemma ChartMessageRead(user: I32, name: Text, id: I32, rest: seq<Byte>)
    requires Short(name)
    ensures ReadMessageBody(5, MessageBody(MsgSelectChart(user, name, id)) + rest) == Got(MsgSelectChart(user, name, id), rest)
  {
    assert MessageBody(MsgSelectChart(user, name, id)) == PutI32(user) + (PutString(name) + PutI32(id));
    NumberThen(user, PutString(name) + PutI32(id), rest);
    TextThen(name, PutI32(id), rest);
    NumberRead(id, rest);
  }

  lemma PlayedMessageRead(user: I32, score: I32, accuracy: U32, fullCombo: bool, rest: seq<Byte>)
    ensures var m := MsgPlayed(user, score, accuracy, fullCombo);
            ReadMessageBody(11, MessageBody(m) + rest) == Got(m, rest)
  {
    var p3 := PutBool(fullCombo);
    var p2 := PutU32(accuracy) + p3;
    NumberThen(user, PutI32(score) + p2, rest);
    NumberThen(score, p2, rest);
    BitsThen(accuracy, p3, rest);
    FlagRead(fullCombo, rest);
  }

  predicate UserOnly(m: Message) {
    m.MsgCreateRoom? || m.MsgNewHost? || m.MsgGameStart? || m.MsgReady? || m.MsgCancelReady? || m.MsgCancelGame? || m.MsgAbort?
  }

  lemma UserMessageRead(m: Message, rest: seq<Byte>)
    requires UserOnly(m)
    ensures ReadMessageBody(MessageTag(m), MessageBody(m) + rest) == Got(m, rest)
  {
    NumberRead(m.user, rest);
  }

  lemma BareMessageRead(m: Message, rest: seq<Byte>)
    requires m.MsgStartPlaying? || m.MsgGameEnd? || m.MsgLockRoom? || m.MsgCycleRoom?
    ensures ReadMessageBody(MessageTag(m), MessageBody(m) + rest) == Got(m, rest)
  {
  }

  lemma MessageRead(m: Message, rest: seq<Byte>)
    requires MessageOk(m)
    ensures ReadMessage(PutMessage(m) + rest) == Got(m, rest)
  {
    assert (PutMessage(m) + rest)[1..] == MessageBody(m) + rest;
    match m
    case MsgChat(_, _) => NamedMessageRead(m, rest);
    case MsgJoinRoom(_, _) => NamedMessageRead(m, rest);
    case MsgLeaveRoom(_, _) => NamedMessageRead(m, rest);
    case MsgSelectChart(user, name, id) => ChartMessageRead(user, name, id, rest);
    case MsgPlayed(user, score, accuracy, fullCombo) => PlayedMessageRead(user, score, accuracy, fullCombo, rest);
    case _ => if UserOnly(m) { UserMessageRead(m, rest); } else { BareMessageRead(m, rest); }
  }

  // ---- Client commands ----

  const MAX_TOKEN := 32
  const MAX_CHAT := 200

  function ClientTag(c: ClientCommand): Byte {
    match c
    case CmdPing => 0
    case CmdAuthenticate(_) => 1
    case CmdChat(_) => 2
    case CmdTouches(_) => 3
    case CmdJudges(_) => 4
    case CmdCreateRoom(_) => 5
    case CmdJoinRoom(_, _) => 6
    case CmdLeaveRoom => 7
    case CmdLockRoom(_) => 8
    case CmdCycleRoom(_) => 9
    case CmdSelectChart(_) => 10
    case CmdRequestStart => 11
    case CmdReady => 12
    case CmdCancelReady => 13
    case CmdPlayed(_) => 14
    case CmdAbort => 15
  }

  function ClientBody(c: ClientCommand): seq<Byte> {
    match c
    case CmdAuthenticate(token) => PutString(token)
    case CmdChat(message) => PutString(message)
    case CmdTouches(frames) => PutArray(PutFrame, frames)
    case CmdJudges(judges) => PutArray(PutJudge, judges)
    case CmdCreateRoom(id) => PutString(id)
    case CmdJoinRoom(id, monitor) => PutString(id) + PutBool(monitor)
    case CmdLockRoom(lock) => PutBool(lock)
    case CmdCycleRoom(cycle) => PutBool(cycle)
    case CmdSelectChart(chart) => PutI32(chart)
    case CmdPlayed(record) => PutI32(record)
    case CmdPing => []
    case CmdLeaveRoom => []
    case CmdRequestStart => []
    case CmdReady => []
    case CmdCancelReady => []
    case CmdAbort => []
  }

  function EncodeClient(c: ClientCommand): seq<Byte> {
    [ClientTag(c)] + ClientBody(c)
  }

  function DecodeClient(b: seq<Byte>): Read<ClientCommand> {
    var (tag, b) :- ReadU8(b);
    DecodeClientBody(tag, b)
  }

  function DecodeClientBody(tag: Byte, b: seq<Byte>): Read<ClientCommand> {
    match tag
    case 0 => Got(CmdPing, b)
    case 1 => var (token, b) :- ReadVarchar(MAX_TOKEN)(b); Got(CmdAuthenticate(token), b)
    case 2 => var (message, b) :- ReadVarchar(MAX_CHAT)(b); Got(CmdChat(message), b)
    case 3 => var (frames, b) :- ReadArray(ReadFrame, b); Got(CmdTouches(frames), b)
    case 4 => var (judges, b) :- ReadArray(ReadJudge, b); Got(CmdJudges(judges), b)
    case 5 => var (id, b) :- ReadRoomId(b); Got(CmdCreateRoom(id), b)
    case 6 => var (id, b) :- ReadRoomId(b); var (monitor, b) :- ReadBool(b); Got(CmdJoinRoom(id, monitor), b)
    case 7 => Got(CmdLeaveRoom, b)
    case 8 => var (lock, b) :- ReadBool(b); Got(CmdLockRoom(lock), b)
    case 9 => var (cycle, b) :- ReadBool(b); Got(CmdCycleRoom(cycle), b)
    case 10 => var (chart, b) :- ReadI32(b); Got(CmdSelectChart(chart), b)
    case 11 => Got(CmdRequestStart, b)
    case 12 => Got(CmdReady, b)
    case 13 => Got(CmdCancelReady, b)
    case 14 => var (record, b) :- ReadI32(b); Got(CmdPlayed(record), b)
    case 15 => Got(CmdAbort, b)
    case _ => Fail
  }

  /** What the encoder accepts and the decoder admits: text and array lengths, room IDs. */
  predicate ClientOk(c: ClientCommand) {
    match c
    case CmdAuthenticate(token) => |token| <= MAX_TOKEN
    case CmdChat(message) => |message| <= MAX_CHAT
    case CmdTouches(frames) => FramesOk(frames)
    case CmdJudges(judges) => |judges| <= MAX_LENGTH
    case CmdCreateRoom(id) => ValidRoomId(id)
    case CmdJoinRoom(id, _) => ValidRoomId(id)
    case _ => true
  }

  function NormClient(c: ClientCommand): ClientCommand {
    match c
    case CmdTouches(frames) => CmdTouches(NormFrames(frames))
    case _ => c
  }

  lemma VarcharRead(max: nat, s: Text, rest: seq<Byte>)
    requires |s| <= max && Short(s)
    ensures ReadVarchar(max)(PutString(s) + rest) == Got(s, rest)
  {
    StringYields(s);
  }

  lemma TextClientRead(c: ClientCommand, rest: seq<Byte>)
    requires ClientOk(c) && (c.CmdAuthenticate? || c.CmdChat? || c.CmdCreateRoom?)
    ensures DecodeClientBody(ClientTag(c), ClientBody(c) + rest) == Got(c, rest)
  {
    match c
    case CmdAuthenticate(token) => VarcharRead(MAX_TOKEN, token, rest);
    case CmdChat(message) => VarcharRead(MAX_CHAT, message, rest);
    case CmdCreateRoom(id) => RoomIdRead(id, rest);
  }

  lemma JoinClientRead(id: Text, monitor: bool, rest: seq<Byte>)
    requires ValidRoomId(id)
    ensures DecodeClientBody(6, ClientBody(CmdJoinRoom(id, monitor)) + rest) == Got(CmdJoinRoom(id, monitor), rest)
  {
    assert ClientBody(CmdJoinRoom(id, monitor)) + rest == PutString(id) + (PutBool(monitor) + rest);
    RoomIdRead(id, PutBool(monitor) + rest);
    FlagRead(monitor, rest);
    assert ReadRoomId(ClientBody(CmdJoinRoom(id, monitor)) + rest) == Got(id, PutBool(monitor) + rest);
  }

  lemma ArrayClientRead(c: ClientCommand, rest: seq<Byte>)
    requires ClientOk(c) && (c.CmdTouches? || c.CmdJudges?)
    ensures DecodeClientBody(ClientTag(c), ClientBody(c) + rest) == Got(NormClient(c), rest)
  {
    match c
    case CmdTouches(frames) => FramesRead(frames, rest);
    case CmdJudges(judges) => JudgesRead(judges, rest);
  }

  lemma FlagClientRead(c: ClientCommand, rest: seq<Byte>)
    requires c.CmdLockRoom? || c.CmdCycleRoom?
    ensures DecodeClientBody(ClientTag(c), ClientBody(c) + rest) == Got(c, rest)
  {
  }

  lemma NumberClientRead(c: ClientCommand, rest: seq<Byte>)
    requires c.CmdSelectChart? || c.CmdPlayed?
    ensures DecodeClientBody(ClientTag(c), ClientBody(c) + rest) == Got(c, rest)
  {
    NumberRead(if c.CmdSelectChart? then c.chart else c.record, rest);
  }

  lemma BareClientRead(c: ClientCommand, rest: seq<Byte>)
    requires ClientBody(c) == [] && (c.CmdPing? || c.CmdLeaveRoom? || c.CmdRequestStart? || c.CmdReady? || c.CmdCancelReady? || c.CmdAbort?)
    ensures DecodeClientBody(ClientTag(c), rest) == Got(c, rest) && ClientBody(c) + rest == rest
  {
  }

  /** Decoding what was encoded gives back the command, with coordinates in binary16 precision, and exactly the bytes that follow. */
  lemma ClientRoundTrip(c: ClientCommand, rest: seq<Byte>)
    requires ClientOk(c)
    ensures DecodeClient(EncodeClient(c) + rest) == Got(NormClient(c), rest)
  {
    assert (EncodeClient(c) + rest)[1..] == ClientBody(c) + rest;
    match c
    case CmdAuthenticate(_) => TextClientRead(c, rest);
    case CmdChat(_) => TextClientRead(c, rest);
    case CmdCreateRoom(_) => TextClientRead(c, rest);
    case CmdJoinRoom(id, monitor) => JoinClientRead(id, monitor, rest);
    case CmdTouches(_) => ArrayClientRead(c, rest);
    case CmdJudges(_) => ArrayClientRead(c, rest);
    case CmdLockRoom(_) => FlagClientRead(c, rest);
    case CmdCycleRoom(_) => FlagClientRead(c, rest);
    case CmdSelectChart(_) => NumberClientRead(c, rest);
    case CmdPlayed(_) => NumberClientRead(c, rest);
    case _ => BareClientRead(c, rest);
  }

  // ---- Coordinates ----

  /** A coordinate that binary16 can hold: the widening of some pattern that is not a foreign NaN. */
  ghost predicate Exact(x: U32) {
    exists h: U16 :: x == F16ToF32(h) && (IsNaN16(h) ==> h == NAN16)
  }

  lemma ExactStays(x: U32)
    requires Exact(x)
    ensures F16ToF32(F32ToF16(x)) == x
  {
    var h: U16 :| x == F16ToF32(h) && (IsNaN16(h) ==> h == NAN16);
    NarrowWiden(h);
  }

  ghost predicate ExactFrame(f: TouchFrame) {
    forall i :: 0 <= i < |f.points| ==> Exact(f.points[i].pos.x) && Exact(f.points[i].pos.y)
  }

  lemma ExactFramesStay(fs: seq<TouchFrame>)
    requires forall i :: 0 <= i < |fs| ==> ExactFrame(fs[i])
    ensures NormFrames(fs) == fs
  {
    forall i | 0 <= i < |fs|
      ensures NormFrame(fs[i]) == fs[i]
    {
      var ps := fs[i].points;
      forall j | 0 <= j < |ps|
        ensures NormPoint(ps[j]) == ps[j]
      {
        assert ExactFrame(fs[i]);
        ExactStays(ps[j].pos.x);
        ExactStays(ps[j].pos.y);
      }
      assert NormFrame(fs[i]).points == ps;
    }
  }

  /** With binary16-exact coordinates the command itself comes back. */
  lemma ExactClientRoundTrip(c: ClientCommand, rest: seq<Byte>)
    requires ClientOk(c) && (c.CmdTouches? ==> forall i :: 0 <= i < |c.frames| ==> ExactFrame(c.frames[i]))
    ensures DecodeClient(EncodeClient(c) + rest) == Got(c, rest)
  {
    ClientRoundTrip(c, rest);
    if c.CmdTouches? {
      ExactFramesStay(c.frames);
    }
  }

  lemma {:induction false} SameItems<T>(put: T -> seq<Byte>, xs: seq<T>, ys: seq<T>)
    requires |xs| == |ys| && forall i :: 0 <= i < |xs| ==> put(xs[i]) == put(ys[i])
    ensures PutItems(put, xs) == PutItems(put, ys)
    decreases |xs|
  {
    if xs != [] {
      SameItems(put, xs[1..], ys[1..]);
    }
  }

  /** Coordinates rounded once encode as they did before, whatever they were. */
  lemma NormFramesEncode(fs: seq<TouchFrame>)
    ensures PutArray(PutFrame, NormFrames(fs)) == PutArray(PutFrame, fs)
  {
    forall i | 0 <= i < |fs|
      ensures PutFrame(NormFrames(fs)[i]) == PutFrame(fs[i])
    {
      NormFrameEncodes(fs[i]);
    }
    SameItems(PutFrame, NormFrames(fs), fs);
  }

  lemma NormFrameEncodes(f: TouchFrame)
    ensures PutFrame(NormFrame(f)) == PutFrame(f)
  {
    forall j | 0 <= j < |f.points|
      ensures PutPoint(NormFrame(f).points[j]) == PutPoint(f.points[j])
    {
      NarrowIdempotent(f.points[j].pos.x);
      NarrowIdempotent(f.points[j].pos.y);
    }
    SameItems(PutPoint, NormFrame(f).points, f.points);
  }

  /** For arbitrary coordinates, NaNs, subnormals and overflow included: encoding what was decoded gives the same bytes. */
  lemma ClientReencodes(c: ClientCommand, rest: seq<Byte>)
    requires ClientOk(c)
    ensures var d := DecodeClient(EncodeClient(c) + rest);
            d.Got? && d.rest == rest && EncodeClient(d.value) == EncodeClient(c)
  {
    ClientRoundTrip(c, rest);
    if c.CmdTouches? {
      NormFramesEncode(c.frames);
    }
  }

  // ---- Server commands ----

  function ServerTag(c: ServerCommand): Byte {
    match c
    case SrvPong => 0
    case SrvAuthenticate(_) => 1
    case SrvChat(_) => 2
    case SrvTouches(_, _) => 3
    case SrvJudges(_, _) => 4
    case SrvMessage(_) => 5
    case SrvChangeState(_) => 6
    case SrvChangeHost(_) => 7
    case SrvCreateRoom(_) => 8
    case SrvJoinRoom(_) => 9
    case SrvOnJoinRoom(_) => 10
    case SrvLeaveRoom(_) => 11
    case SrvLockRoom(_) => 12
    case SrvCycleRoom(_) => 13
    case SrvSelectChart(_) => 14
    case SrvRequestStart(_) => 15
    case SrvReady(_) => 16
    case SrvCancelReady(_) => 17
    case SrvPlayed(_) => 18
    case SrvAbort(_) => 19
  }

  ghost function ServerBody(c: ServerCommand): seq<Byte> {
    match c
    case SrvPong => []
    case SrvAuthenticate(auth) => PutResult(PutAuth, auth)
    case SrvTouches(player, frames) => PutI32(player) + PutArray(PutFrame, frames)
    case SrvJudges(player, judges) => PutI32(player) + PutArray(PutJudge, judges)
    case SrvMessage(message) => PutMessage(message)
    case SrvChangeState(state) => PutRoomState(state)
    case SrvChangeHost(isHost) => PutBool(isHost)
    case SrvJoinRoom(join) => PutResult(PutJoinResponse, join)
    case SrvOnJoinRoom(info) => PutUser(info)
    case SrvChat(result) => PutResult(PutUnit, result)
    case SrvCreateRoom(result) => PutResult(PutUnit, result)
    case SrvLeaveRoom(result) => PutResult(PutUnit, result)
    case SrvLockRoom(result) => PutResult(PutUnit, result)
    case SrvCycleRoom(result) => PutResult(PutUnit, result)
    case SrvSelectChart(result) => PutResult(PutUnit, result)
    case SrvRequestStart(result) => PutResult(PutUnit, result)
    case SrvReady(result) => PutResult(PutUnit, result)
    case SrvCancelReady(result) => PutResult(PutUnit, result)
    case SrvPlayed(result) => PutResult(PutUnit, result)
    case SrvAbort(result) => PutResult(PutUnit, result)
  }

  ghost function EncodeServer(c: ServerCommand): seq<Byte> {
    [ServerTag(c)] + ServerBody(c)
  }

  function DecodeServer(b: seq<Byte>): Read<ServerCommand> {
    var (tag, b) :- ReadU8(b);
    DecodeServerBody(tag, b)
  }

  /** The replies that carry nothing but success or an error text. */
  function UnitReply(tag: Byte, result: StringResult<()>): Option<ServerCommand> {
    match tag
    case 2 => Some(SrvChat(result))
    case 8 => Some(SrvCreateRoom(result))
    case 11 => Some(SrvLeaveRoom(result))
    case 12 => Some(SrvLockRoom(result))
    case 13 => Some(SrvCycleRoom(result))
    case 14 => Some(SrvSelectChart(result))
    case 15 => Some(SrvRequestStart(result))
    case 16 => Some(SrvReady(result))
    case 17 => Some(SrvCancelReady(result))
    case 18 => Some(SrvPlayed(result))
    case 19 => Some(SrvAbort(result))
    case _ => None
  }

  predicate IsUnitTag(tag: Byte) {
    tag == 2 || tag == 8 || 11 <= tag <= 19
  }

  function DecodeServerBody(tag: Byte, b: seq<Byte>): Read<ServerCommand> {
    if IsUnitTag(tag) then
      var (result, b) :- ReadResult(ReadUnit, b);
      Got(UnitReply(tag, result).value, b)
    else
      match tag
      case 0 => Got(SrvPong, b)
      case 1 => var (auth, b) :- ReadResult(ReadAuth, b); Got(SrvAuthenticate(auth), b)
      case 3 => var (player, b) :- ReadI32(b); var (frames, b) :- ReadArray(ReadFrame, b); Got(SrvTouches(player, frames), b)
      case 4 => var (player, b) :- ReadI32(b); var (judges, b) :- ReadArray(ReadJudge, b); Got(SrvJudges(player, judges), b)
      case 5 => var (message, b) :- ReadMessage(b); Got(SrvMessage(message), b)
      case 6 => var (state, b) :- ReadRoomState(b); Got(SrvChangeState(state), b)
      case 7 => var (isHost, b) :- ReadBool(b); Got(SrvChangeHost(isHost), b)
      case 9 => var (join, b) :- ReadResult(ReadJoinResponse, b); Got(SrvJoinRoom(join), b)
      case 10 => var (info, b) :- ReadUser(b); Got(SrvOnJoinRoom(info), b)
      case _ => Fail
  }

  predicate ServerOk(c: ServerCommand) {
    match c
    case SrvPong => true
    case SrvAuthenticate(auth) => if auth.Ok? then AuthOk(auth.value) else Short(auth.error)
    case SrvTouches(_, frames) => FramesOk(frames)
    case SrvJudges(_, judges) => |judges| <= MAX_LENGTH
    case SrvMessage(message) => MessageOk(message)
    case SrvChangeState(_) => true
    case SrvChangeHost(_) => true
    case SrvJoinRoom(join) => if join.Ok? then JoinOk(join.value) else Short(join.error)
    case SrvOnJoinRoom(info) => Short(info.name)
    case SrvChat(result) => UnitOk(result)
    case SrvCreateRoom(result) => UnitOk(result)
    case SrvLeaveRoom(result) => UnitOk(result)
    case SrvLockRoom(result) => UnitOk(result)
    case SrvCycleRoom(result) => UnitOk(result)
    case SrvSelectChart(result) => UnitOk(result)
    case SrvRequestStart(result) => UnitOk(result)
    case SrvReady(result) => UnitOk(result)
    case SrvCancelReady(result) => UnitOk(result)
    case SrvPlayed(result) => UnitOk(result)
    case SrvAbort(result) => UnitOk(result)
  }

  function NormServer(c: ServerCommand): ServerCommand {
    match c
    case SrvTouches(player, frames) => SrvTouches(player, NormFrames(frames))
    case _ => c
  }

  lemma UnitServerRead(tag: Byte, result: StringResult<()>, rest: seq<Byte>)
    requires UnitOk(result) && IsUnitTag(tag)
    ensures DecodeServerBody(tag, PutResult(PutUnit, result) + rest) == Got(UnitReply(tag, result).value, rest)
  {
    UnitRead(result, rest);
  }

  lemma UnitShape(c: ServerCommand)
    requires IsUnitTag(ServerTag(c)) && ServerOk(c)
    ensures UnitOk(c.result) && ServerBody(c) == PutResult(PutUnit, c.result) && UnitReply(ServerTag(c), c.result) == Some(c)
  {
  }

  lemma AuthResultRead(auth: StringResult<AuthInfo>, rest: seq<Byte>)
    requires if auth.Ok? then AuthOk(auth.value) else Short(auth.error)
    ensures ReadResult(ReadAuth, PutResult(PutAuth, auth) + rest) == Got(auth, rest)
  {
    if auth.Ok? {
      AuthRead(auth.value, rest);
    }
    ResultRead(PutAuth, ReadAuth, auth, rest);
  }

  lemma AuthServerRead(auth: StringResult<AuthInfo>, rest: seq<Byte>)
    requires ServerOk(SrvAuthenticate(auth))
    ensures DecodeServerBody(1, ServerBody(SrvAuthenticate(auth)) + rest) == Got(SrvAuthenticate(auth), rest)
  {
    AuthResultRead(auth, rest);
  }

  lemma JoinResultRead(join: StringResult<JoinRoomResponse>, rest: seq<Byte>)
    requires if join.Ok? then JoinOk(join.value) else Short(join.error)
    ensures ReadResult(ReadJoinResponse, PutResult(PutJoinResponse, join) + rest) == Got(join, rest)
  {
    if join.Ok? {
      JoinResponseRead(join.value, rest);
    }
    ResultRead(PutJoinResponse, ReadJoinResponse, join, rest);
  }

  lemma JoinServerRead(join: StringResult<JoinRoomResponse>, rest: seq<Byte>)
    requires ServerOk(SrvJoinRoom(join))
    ensures DecodeServerBody(9, ServerBody(SrvJoinRoom(join)) + rest) == Got(SrvJoinRoom(join), rest)
  {
    JoinResultRead(join, rest);
  }

  lemma TouchesServerRead(player: I32, frames: seq<TouchFrame>, rest: seq<Byte>)
    requires FramesOk(frames)
    ensures DecodeServerBody(3, ServerBody(SrvTouches(player, frames)) + rest) == Got(SrvTouches(player, NormFrames(frames)), rest)
  {
    NumberThen(player, PutArray(PutFrame, frames), rest);
    FramesRead(frames, rest);
  }

  lemma JudgesServerRead(player: I32, judges: seq<JudgeEvent>, rest: seq<Byte>)
    requires |judges| <= MAX_LENGTH
    ensures DecodeServerBody(4, ServerBody(SrvJudges(player, judges)) + rest) == Got(SrvJudges(player, judges), rest)
  {
    NumberThen(player, PutArray(PutJudge, judges), rest);
    JudgesRead(judges, rest);
  }

  lemma MessageServerRead(message: Message, rest: seq<Byte>)
    requires MessageOk(message)
    ensures DecodeServerBody(5, ServerBody(SrvMessage(message)) + rest) == Got(SrvMessage(message), rest)
  {
    MessageRead(message, rest);
  }

  lemma UserServerRead(info: UserInfo, rest: seq<Byte>)
    requires Short(info.name)
    ensures DecodeServerBody(10, ServerBody(SrvOnJoinRoom(info)) + rest) == Got(SrvOnJoinRoom(info), rest)
  {
    assert ServerBody(SrvOnJoinRoom(info)) == PutUser(info);
    UserRead(info, rest);
  }

  lemma StateServerRead(state: RoomState, rest: seq<Byte>)
    ensures DecodeServerBody(6, ServerBody(SrvChangeState(state)) + rest) == Got(SrvChangeState(state), rest)
  {
    RoomStateRead(state, rest);
  }

  lemma HostServerRead(isHost: bool, rest: seq<Byte>)
    ensures DecodeServerBody(7, ServerBody(SrvChangeHost(isHost)) + rest) == Got(SrvChangeHost(isHost), rest)
  {
  }

  lemma PongServerRead(rest: seq<Byte>)
    ensures DecodeServerBody(0, ServerBody(SrvPong) + rest) == Got(SrvPong, rest)
  {
  }

  lemma ServerRoundTrip(c: ServerCommand, rest: seq<Byte>)
    requires ServerOk(c)
    ensures DecodeServer(EncodeServer(c) + rest) == Got(NormServer(c), rest)
  {
    assert (EncodeServer(c) + rest)[1..] == ServerBody(c) + rest;
    match c
    case SrvAuthenticate(auth) => AuthServerRead(auth, rest);
    case SrvTouches(player, frames) => TouchesServerRead(player, frames, rest);
    case SrvJudges(player, judges) => JudgesServerRead(player, judges, rest);
    case SrvJoinRoom(join) => JoinServerRead(join, rest);
    case SrvMessage(message) => MessageServerRead(message, rest);
    case SrvOnJoinRoom(info) => UserServerRead(info, rest);
    case SrvChangeState(state) => StateServerRead(state, rest);
    case SrvChangeHost(isHost) => HostServerRead(isHost, rest);
    case SrvPong => PongServerRead(rest);
    case _ =>
      UnitShape(c);
      UnitServerRead(ServerTag(c), c.result, rest);
  }

  lemma ExactServerRoundTrip(c: ServerCommand, rest: seq<Byte>)
    requires ServerOk(c) && (c.SrvTouches? ==> forall i :: 0 <= i < |c.frames| ==> ExactFrame(c.frames[i]))
    ensures DecodeServer(EncodeServer(c) + rest) == Got(c, rest)
  {
    ServerRoundTrip(c, rest);
    if c.SrvTouches? {
      ExactFramesStay(c.frames);
    }
  }

  lemma ServerReencodes(c: ServerCommand, rest: seq<Byte>)
    requires ServerOk(c)
    ensures var d := DecodeServer(EncodeServer(c) + rest);
            d.Got? && d.rest == rest && EncodeServer(d.value) == EncodeServer(c)
  {
    ServerRoundTrip(c, rest);
    if c.SrvTouches? {
      NormFramesEncode(c.frames);
    }
  }
}
