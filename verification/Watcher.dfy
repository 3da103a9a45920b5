/** The answer to the client in bytes, and the request/reply loop that sends it
    (xactserver/src/pg/watcher.rs). */
module Watcher {
  import opened Messages
  import TransactionSafety
  import SystemRuns
  import System
  import RwSetFormat

  // ----- The wire format -------------------------------------------------------------

  const NUL: Byte := 0

  /** `put_u8((by + 1).try_into().unwrap())` panics for nodes from 255 on. (The sum is of
      32-bit words: for the very last node, 2^32 - 1, it overflows instead.) */
  predicate Serializable(info: Option<RollbackInfo>) {
    info.Some? ==> info.value.origin + 1 < 256
  }

  function Terminated(text: Text): Text {
    text + [NUL]
  }

  /** An empty message for a commit; otherwise who rolled back and why. */
  function Serialize(info: Option<RollbackInfo>): seq<Byte>
    requires Serializable(info)
  {
    match info
    case None => [NUL]
    case Some(RollbackInfo(origin, Db(err))) =>
      [origin + 1 as Byte] + Terminated(err.message) + SqlData(err) + [NUL]
    case Some(RollbackInfo(origin, Other(text))) =>
      [origin + 1 as Byte] + Terminated(text) + [NUL]
  }

  /** The part of the message that only a database error has. */
  function SqlData(err: DbError): seq<Byte> {
    [1] + err.code + (Terminated(err.severity) + Terminated(err.detail) + Terminated(err.hint))
  }

  /** A growing byte buffer. */
  class BytesMut {
    var bytes: seq<Byte>

    constructor ()
      ensures bytes == []
    {
      bytes := [];
    }

    method PutU8(b: Byte)
      modifies this
      ensures bytes == old(bytes) + [b]
    {
      bytes := bytes + [b];
    }

    method PutSlice(s: seq<Byte>)
      modifies this
      ensures bytes == old(bytes) + s
    {
      bytes := bytes + s;
    }
  }

  method PutText(buf: BytesMut, text: Text)
    modifies buf
    ensures buf.bytes == old(buf.bytes) + Terminated(text)
  {
    buf.PutSlice(text);
    buf.PutU8(NUL);
  }

  method PutSqlData(buf: BytesMut, err: DbError)
    modifies buf
    ensures buf.bytes == old(buf.bytes) + SqlData(err)
  {
    buf.PutU8(1);
    buf.PutSlice(err.code);
    label texts:
    PutText(buf, err.severity);
    PutText(buf, err.detail);
    PutText(buf, err.hint);
    assert buf.bytes == old@texts(buf.bytes) + (Terminated(err.severity) + Terminated(err.detail) + Terminated(err.hint));
    assert old@texts(buf.bytes) == old(buf.bytes) + ([1] + err.code);
  }

  /** `serialize_rollback_info`, or a panic. */
  method SerializeRollbackInfo(info: Option<RollbackInfo>) returns (bytes: Option<seq<Byte>>)
    ensures bytes.Some? <==> Serializable(info)
    ensures bytes.Some? ==> bytes.value == Serialize(info)
  {
    var buf := new BytesMut();
    if info.Some? {
      var RollbackInfo(origin, reason) := info.value;
      if origin + 1 >= 256 {
        return None;
      }
      buf.PutU8(origin + 1);
      match reason
      case Db(err) =>
        PutText(buf, err.message);
        PutSqlData(buf, err);
      case Other(text) =>
        PutText(buf, text);
    }
    buf.PutU8(NUL);
    return Some(buf.bytes);
  }

  // ----- Reading it back --------------------------------------------------------------

  /** The text up to the first NUL, and what follows that NUL. */
  function ParseText(b: seq<Byte>): Option<(Text, seq<Byte>)> {
    if b == [] then None
    else if b[0] == NUL then Some(([], b[1..]))
    else match ParseText(b[1..])
      case None => None
      case Some((text, rest)) => Some(([b[0]] + text, rest))
  }

  predicate NulFree(text: Text) {
    forall i :: 0 <= i < |text| ==> text[i] != NUL
  }

  /** What a reader of the format takes a message for. */
  function ParseInfo(b: seq<Byte>): Option<Option<RollbackInfo>> {
    if b == [NUL] then Some(None)
    else if b == [] || b[0] == NUL then None
    else match ParseText(b[1..])
      case None => None
      case Some((message, rest)) =>
        if rest == [NUL] then Some(Some(RollbackInfo(b[0] - 1, Other(message))))
        else if |rest| < 6 || rest[0] != 1 then None
        else ParseDbError(b[0] - 1, message, rest[1..6], rest[6..])
  }

  function ParseDbError(origin: nat, message: Text, code: seq<Byte>, b: seq<Byte>): Option<Option<RollbackInfo>> {
    match ParseText(b)
    case None => None
    case Some((severity, b1)) =>
      match ParseText(b1)
      case None => None
      case Some((detail, b2)) =>
        match ParseText(b2)
        case None => None
        case Some((hint, b3)) =>
          if b3 == [NUL] then Some(Some(RollbackInfo(origin, Db(DbError(code, severity, message, detail, hint))))) else None
  }

  /** Texts without NULs, and an SQL code of five bytes. */
  predicate WireSafe(info: Option<RollbackInfo>) {
    info.Some? ==>
      match info.value.reason
      case Other(text) => NulFree(text)
      case Db(err) => NulFree(err.message) && |err.code| == 5 && NulFree(err.severity) && NulFree(err.detail) && NulFree(err.hint)
  }

  lemma {:induction false} ReadText(text: Text, rest: seq<Byte>)
    requires NulFree(text)
    ensures ParseText(Terminated(text) + rest) == Some((text, rest))
  {
    var b := Terminated(text) + rest;
    if text == [] {
      assert b[1..] == rest;
    } else {
      assert b[1..] == Terminated(text[1..]) + rest;
      ReadText(text[1..], rest);
      assert [text[0]] + text[1..] == text;
    }
  }

  lemma {:induction false} TextRead(b: seq<Byte>)
    ensures ParseText(b).Some? ==> NulFree(ParseText(b).value.0)
  {
    if b != [] {
      TextRead(b[1..]);
    }
  }

  /** A reader only ever comes up with wire-safe information. */
  lemma ParsesAreSafe(b: seq<Byte>)
    ensures ParseInfo(b).Some? ==> WireSafe(ParseInfo(b).value)
  {
    if b != [] {
      TextRead(b[1..]);
      if ParseText(b[1..]).Some? {
        var (message, rest) := ParseText(b[1..]).value;
        if |rest| >= 6 && b[0] != NUL {
          DbParsesAreSafe(b[0], message, rest[1..6], rest[6..]);
        }
      }
    }
  }

  lemma DbParsesAreSafe(b0: Byte, message: Text, code: seq<Byte>, b: seq<Byte>)
    requires NulFree(message) && |code| == 5 && b0 != NUL
    ensures ParseDbError(b0 - 1, message, code, b).Some? ==> WireSafe(ParseDbError(b0 - 1, message, code, b).value)
  {
    TextRead(b);
    if ParseText(b).Some? {
      var b1 := ParseText(b).value.1;
      TextRead(b1);
      if ParseText(b1).Some? {
        TextRead(ParseText(b1).value.1);
      }
    }
  }

  lemma ReadDbError(origin: nat, err: DbError)
    requires WireSafe(Some(RollbackInfo(origin, Db(err))))
    ensures ParseDbError(origin, err.message, err.code,
                         Terminated(err.severity) + Terminated(err.detail) + Terminated(err.hint) + [NUL])
            == Some(Some(RollbackInfo(origin, Db(err))))
  {
    var b3 := [NUL];
    var b2 := Terminated(err.hint) + b3;
    var b1 := Terminated(err.detail) + b2;
    assert Terminated(err.severity) + Terminated(err.detail) + Terminated(err.hint) + b3 == Terminated(err.severity) + b1;
    ReadText(err.severity, b1);
    ReadText(err.detail, b2);
    ReadText(err.hint, b3);
  }

  lemma ReadInfo(info: Option<RollbackInfo>)
    requires Serializable(info) && WireSafe(info)
    ensures ParseInfo(Serialize(info)) == Some(info)
  {
    var b := Serialize(info);
    match info
    case None =>
    case Some(RollbackInfo(origin, Other(text))) =>
      assert b[1..] == Terminated(text) + [NUL];
      ReadText(text, [NUL]);
    case Some(RollbackInfo(origin, Db(err))) =>
      var tail := Terminated(err.severity) + Terminated(err.detail) + Terminated(err.hint) + [NUL];
      var rest := [1] + err.code + tail;
      assert SqlData(err) + [NUL] == rest;
      assert b[1..] == Terminated(err.message) + rest;
      ReadText(err.message, rest);
      assert rest[1..6] == err.code && rest[6..] == tail;
      ReadDbError(origin, err);
  }

  /** The message can be read back exactly if it is wire-safe. */
  lemma ReadableExactlyIfSafe(info: Option<RollbackInfo>)
    requires Serializable(info)
    ensures ParseInfo(Serialize(info)) == Some(info) <==> WireSafe(info)
  {
    if WireSafe(info) {
      ReadInfo(info);
    } else {
      ParsesAreSafe(Serialize(info));
    }
  }

  /** So no two wire-safe answers look alike, and a leading 0 means commit. */
  lemma SerializeInjective(x: Option<RollbackInfo>, y: Option<RollbackInfo>)
    requires Serializable(x) && Serializable(y) && WireSafe(x) && WireSafe(y)
    requires Serialize(x) == Serialize(y)
    ensures x == y
  {
    ReadInfo(x);
    ReadInfo(y);
  }

  lemma LeadingZeroMeansCommit(info: Option<RollbackInfo>)
    requires Serializable(info)
    ensures Serialize(info) != [] && (Serialize(info)[0] == NUL <==> info.None?)
  {
  }

  /** A commit is one zero byte. A database error "m" at node 0 with code "40001", severity
      "S", detail "d" and hint "h" has a byte 1 in front of the code, and the texts in this
      order. */
  lemma AnswersInBytes()
    ensures Serialize(None) == [0]
    ensures Serialize(Some(RollbackInfo(0, Db(DbError([0x34, 0x30, 0x30, 0x30, 0x31], [0x53], [0x6D], [0x64], [0x68])))))
            == [1, 0x6D, 0, 1, 0x34, 0x30, 0x30, 0x30, 0x31, 0x53, 0, 0x64, 0, 0x68, 0, 0]
    ensures Serialize(Some(RollbackInfo(0, Other([0x6D])))) == [1, 0x6D, 0, 0]
  {
  }

  // ----- When the bytes say less than the answer --------------------------------------

  /** What stands between the node and the end of a message. */
  function Body(reason: RollbackReason): seq<Byte> {
    match reason
    case Other(text) => text
    case Db(err) =>
      err.message + [NUL, 1] + err.code + Terminated(err.severity) + Terminated(err.detail) + err.hint
  }

  lemma SerializedBody(info: RollbackInfo)
    requires Serializable(Some(info))
    ensures Serialize(Some(info)) == [info.origin + 1] + Body(info.reason) + [NUL, NUL]
  {
    var first: seq<Byte> := [info.origin + 1];
    match info.reason
    case Other(text) => assert [NUL] + [NUL] == [NUL, NUL];
    case Db(err) => PartsOfDb(first, err.message, err.code, Terminated(err.severity), Terminated(err.detail), err.hint);
  }

  lemma PartsOfDb(first: Text, message: Text, code: Text, severity: Text, detail: Text, hint: Text)
    ensures first + Terminated(message) + ([1] + code + (severity + detail + Terminated(hint))) + [NUL]
            == first + (message + [NUL, 1] + code + severity + detail + hint) + [NUL, NUL]
  {
    assert [NUL] + [1] == [NUL, 1] && [NUL] + [NUL] == [NUL, NUL];
  }

  /** Two rollbacks look alike exactly if they name the same node and have the same body;
      so two errors that do not come from the database never do. */
  lemma LookAlike(x: RollbackInfo, y: RollbackInfo)
    requires Serializable(Some(x)) && Serializable(Some(y))
    ensures Serialize(Some(x)) == Serialize(Some(y)) <==> x.origin == y.origin && Body(x.reason) == Body(y.reason)
    ensures x.reason.Other? && y.reason.Other? && Serialize(Some(x)) == Serialize(Some(y)) ==> x == y
  {
    SerializedBody(x);
    SerializedBody(y);
    var a, b := Serialize(Some(x)), Serialize(Some(y));
    assert a[0] == x.origin + 1 && b[0] == y.origin + 1;
    assert a[1..|a| - 2] == Body(x.reason) && b[1..|b| - 2] == Body(y.reason);
  }

  /** SQL codes have five bytes. */
  predicate CodeFits(info: Option<RollbackInfo>) {
    info.Some? && info.value.reason.Db? ==> |info.value.reason.err.code| == 5
  }

  /** The text contains what separates the parts of a database error. */
  ghost predicate LooksLikeDb(text: Text) {
    exists i, j, k :: DbSplit(text, i, j, k)
  }

  predicate DbSplit(text: Text, i: nat, j: nat, k: nat) {
    i + 7 <= j < k < |text| && text[i] == NUL && text[i + 1] == 1 && text[j] == NUL && text[k] == NUL
  }

  function DbFrom(text: Text, i: nat, j: nat, k: nat): DbError
    requires DbSplit(text, i, j, k)
  {
    DbError(text[i + 2..i + 7], text[i + 7..j], text[..i], text[j + 1..k], text[k + 1..])
  }

  /** The part from `m` on, up to the NUL at `n` and after it. */
  lemma CutAtNul(text: Text, m: nat, n: nat)
    requires m <= n < |text| && text[n] == NUL
    ensures text[m..] == Terminated(text[m..n]) + text[n + 1..]
  {
  }

  lemma DbFromHasBody(text: Text, i: nat, j: nat, k: nat)
    requires DbSplit(text, i, j, k)
    ensures Body(Db(DbFrom(text, i, j, k))) == text
  {
    CutAtNul(text, i + 7, j);
    CutAtNul(text, j + 1, k);
    var head := text[..i] + [NUL, 1] + text[i + 2..i + 7];
    assert text == head + text[i + 7..];
    Associate(head, Terminated(text[i + 7..j]), Terminated(text[j + 1..k]), text[k + 1..]);
  }

  lemma Associate(a: Text, b: Text, c: Text, d: Text)
    ensures a + b + c + d == a + (b + (c + d))
  {
  }

  lemma BodyOfDbSplits(err: DbError)
    requires |err.code| == 5
    ensures LooksLikeDb(Body(Db(err)))
  {
    var i := |err.message|;
    var j := i + 7 + |err.severity|;
    var k := j + 1 + |err.detail|;
    var head := err.message + [NUL, 1] + err.code;
    assert Body(Db(err)) == head + err.severity + [NUL] + err.detail + [NUL] + err.hint;
    assert DbSplit(Body(Db(err)), i, j, k);
  }

  ghost predicate Ambiguous(reason: RollbackReason) {
    match reason
    case Db(_) => true
    case Other(text) => LooksLikeDb(text)
  }

  ghost predicate MistakenFor(x: RollbackInfo, y: Option<RollbackInfo>)
    requires Serializable(Some(x))
  {
    y != Some(x) && Serializable(y) && CodeFits(y) && Serialize(y) == Serialize(Some(x))
  }

  /** The bytes of a rollback can stand for another answer exactly if its reason is a
      database error, which can always be imitated by a text, or a text that looks like
      one. */
  lemma AmbiguousExactlyIf(x: RollbackInfo)
    requires Serializable(Some(x))
    ensures (exists y :: MistakenFor(x, y)) <==> Ambiguous(x.reason)
  {
    if Ambiguous(x.reason) {
      var y := LookAlikeOf(x);
      assert MistakenFor(x, Some(y));
    }
    if exists y :: MistakenFor(x, y) {
      var y :| MistakenFor(x, y);
      LeadingZeroMeansCommit(y);
      LeadingZeroMeansCommit(Some(x));
      LookAlike(y.value, x);
      if x.reason.Other? {
        BodyOfDbSplits(y.value.reason.err);
      }
    }
  }

  lemma LookAlikeOf(x: RollbackInfo) returns (y: RollbackInfo)
    requires Serializable(Some(x)) && Ambiguous(x.reason)
    ensures MistakenFor(x, Some(y))
  {
    match x.reason {
      case Db(_) => y := RollbackInfo(x.origin, Other(Body(x.reason)));
      case Other(text) =>
        var i, j, k :| DbSplit(text, i, j, k);
        DbFromHasBody(text, i, j, k);
        y := RollbackInfo(x.origin, Db(DbFrom(text, i, j, k)));
    }
    LookAlike(x, y);
  }

  /** A text with a NUL in it can imitate a database error. */
  lemma NulsConfuse()
    ensures var x := RollbackInfo(0, Other([NUL, 1, 48, 48, 48, 48, 48, NUL, NUL]));
            var y := RollbackInfo(0, Db(DbError([48, 48, 48, 48, 48], [], [], [], [])));
            x != y && Serialize(Some(x)) == Serialize(Some(y)) && !WireSafe(Some(x)) && WireSafe(Some(y))
  {
    var text: Text := [NUL, 1, 48, 48, 48, 48, 48, NUL, NUL];
    var err := DbError([48, 48, 48, 48, 48], [], [], [], []);
    ImitatedBody(err, text);
    assert text[0] == NUL;
    assert !NulFree(text);
    LookAlike(RollbackInfo(0, Other(text)), RollbackInfo(0, Db(err)));
  }

  lemma ImitatedBody(err: DbError, text: Text)
    requires err.message == err.severity == err.detail == err.hint == [] && text == [NUL, 1] + err.code + [NUL, NUL]
    ensures Body(Db(err)) == text
  {
  }

  /** The panic of the serializer is out of reach: whatever a coordinator answers in
      any run comes from a participant, and participants are numbered below 64. */
  lemma AnswersSerializable(ss: seq<System.System>, steps: seq<System.SysStep>, i: nat, id: XactId)
    requires SystemRuns.IsSysRun(ss, steps) && i < |ss|
    ensures var reply := TransactionSafety.ReplyAt(System.View(ss[i], id));
            reply.Answered? ==> Serializable(reply.answer)
  {
    SystemRuns.SysRunInv(ss, steps, i);
    var t := System.View(ss[i], id);
    TransactionSafety.ClientAnswer(t);
    if t.data.Some? {
      RwSetFormat.ParticipantsBelow64(t.data.value);
    }
  }

  // ----- One reply per request ----------------------------------------------------------

  datatype FrontendMessage = CopyData(data: seq<Byte>) | Terminate | Unexpected | Disconnected | ReadFailed

  /** What becomes of a request: the manager does not take it; its reply channel is
      dropped; or a reply comes back and is written out, if the connection lets it. */
  datatype Answer = NotTaken | Hangup | Replied(info: Option<RollbackInfo>, writes: bool)

  datatype SessionEnd = Closed | SessionFailed | SessionPanicked | StillOpen

  /** Requests passed on, replies written, and how the session stands. */
  datatype Session = Session(requests: seq<seq<Byte>>, written: seq<seq<Byte>>, end: SessionEnd)

  /** What one message, with the answer to it if it is a request, does to an open session. */
  function OnMessage(s: Session, message: FrontendMessage, answer: Answer): Session {
    match message
    case Terminate => s.(end := Closed)
    case Disconnected => s.(end := Closed)
    case Unexpected => s.(end := SessionFailed)
    case ReadFailed => s.(end := SessionFailed)
    case CopyData(data) =>
      var asked := s.(requests := s.requests + [data]);
      match answer
      case NotTaken => s.(end := SessionFailed)
      case Hangup => asked.(end := SessionFailed)
      case Replied(info, writes) =>
        if !Serializable(info) then asked.(end := SessionPanicked)
        else if !writes then asked.(end := SessionFailed)
        else asked.(written := s.written + [Serialize(info)])
  }

  /** What the reply channel of a request gives, once it gives something. */
  function AnswerFrom(view: TransactionSafety.ClientView, writes: bool): Option<Answer> {
    match view
    case Kept => None
    case HungUp => Some(Hangup)
    case Told(info) => Some(Replied(info, writes))
  }

  /** With the answers that runs of the system give, a session never panics; it fails if
      the coordinator stopped without an answer, and writes the answer otherwise if the
      connection lets it. */
  lemma SessionInRun(ss: seq<System.System>, steps: seq<System.SysStep>, i: nat, id: XactId,
                     s: Session, data: seq<Byte>, writes: bool)
    requires SystemRuns.IsSysRun(ss, steps) && i < |ss| && s.end == StillOpen
    requires TransactionSafety.ClientSees(System.View(ss[i], id)) != TransactionSafety.Kept
    ensures var view := TransactionSafety.ClientSees(System.View(ss[i], id));
            var s' := OnMessage(s, CopyData(data), AnswerFrom(view, writes).value);
            && s'.end == (if view.HungUp? || !writes then SessionFailed else StillOpen)
            && s'.requests == s.requests + [data]
            && s'.written == s.written + (if view.Told? && writes then [Serialize(view.answer)] else [])
  {
    AnswersSerializable(ss, steps, i, id);
    assert s.written + [] == s.written;
  }

  /** The session after the first `n` messages. */
  function After(messages: seq<FrontendMessage>, answers: seq<Answer>, n: nat): Session
    requires n <= |messages| == |answers|
  {
    if n == 0 then Session([], [], StillOpen)
    else
      var s := After(messages, answers, n - 1);
      if s.end.StillOpen? then OnMessage(s, messages[n - 1], answers[n - 1]) else s
  }

  /** Each reply is the answer to the request at the same place, and only the last
      request of a session that broke off can be without one. */
  lemma {:induction false} RepliesMatchRequests(messages: seq<FrontendMessage>, answers: seq<Answer>, n: nat)
    requires n <= |messages| == |answers|
    ensures var s := After(messages, answers, n);
            && |s.written| <= |s.requests| <= n
            && (s.end.StillOpen? ==> |s.written| == n)
            && (if s.end.SessionFailed? || s.end.SessionPanicked? then |s.requests| <= |s.written| + 1
                else |s.requests| == |s.written|)
            && (forall j :: 0 <= j < |s.requests| ==> messages[j] == CopyData(s.requests[j]))
            && (forall j :: 0 <= j < |s.written| ==>
                  answers[j].Replied? && Serializable(answers[j].info) && s.written[j] == Serialize(answers[j].info))
  {
    if n > 0 {
      RepliesMatchRequests(messages, answers, n - 1);
    }
  }

  // ----- How a session ends -----------------------------------------------------------------

  /** A request that was taken, answered, and whose reply was written out. */
  predicate Served(message: FrontendMessage, answer: Answer) {
    message.CopyData? && answer.Replied? && Serializable(answer.info) && answer.writes
  }

  /** The client ends the session. */
  predicate Closes(message: FrontendMessage) {
    message.Terminate? || message.Disconnected?
  }

  /** An unexpected message or one that cannot be read, or a request that is not taken,
      gets no answer, or whose reply cannot be written. */
  predicate Fails(message: FrontendMessage, answer: Answer) {
    || message.Unexpected? || message.ReadFailed?
    || (message.CopyData? && (answer.NotTaken? || answer.Hangup?))
    || (message.CopyData? && answer.Replied? && Serializable(answer.info) && !answer.writes)
  }

  /** A request whose reply cannot be serialized. */
  predicate PanicsOn(message: FrontendMessage, answer: Answer) {
    message.CopyData? && answer.Replied? && !Serializable(answer.info)
  }

  /** Message `i` is the first of the first `n` that is not a request served. */
  ghost predicate StopsAt(messages: seq<FrontendMessage>, answers: seq<Answer>, n: nat, i: nat)
    requires n <= |messages| == |answers|
  {
    i < n && !Served(messages[i], answers[i]) && forall j :: 0 <= j < i ==> Served(messages[j], answers[j])
  }

  ghost predicate AllServed(messages: seq<FrontendMessage>, answers: seq<Answer>, n: nat)
    requires n <= |messages| == |answers|
  {
    forall j :: 0 <= j < n ==> Served(messages[j], answers[j])
  }

  /** What a session comes to that stops at message `i`: the requests before it are served,
      and the message decides how the session ends. */
  ghost predicate StoppedBy(s: Session, message: FrontendMessage, answer: Answer, i: nat) {
    && |s.written| == i
    && |s.requests| == i + (if message.CopyData? && !answer.NotTaken? then 1 else 0)
    && (s.end == Closed <==> Closes(message))
    && (s.end == SessionFailed <==> Fails(message, answer))
    && (s.end == SessionPanicked <==> PanicsOn(message, answer))
    && s.end != StillOpen
  }

  lemma {:induction false} ServedSoFar(messages: seq<FrontendMessage>, answers: seq<Answer>, n: nat)
    requires n <= |messages| == |answers| && AllServed(messages, answers, n)
    ensures var s := After(messages, answers, n); s.end == StillOpen && |s.written| == |s.requests| == n
  {
    if n > 0 {
      ServedSoFar(messages, answers, n - 1);
    }
  }

  lemma StopsNow(messages: seq<FrontendMessage>, answers: seq<Answer>, n: nat, i: nat)
    requires n <= |messages| == |answers| && StopsAt(messages, answers, n, i)
    ensures StoppedBy(After(messages, answers, n), messages[i], answers[i], i)
  {
    ServedSoFar(messages, answers, i);
    SessionOver(messages, answers, i + 1, n);
  }

  lemma {:induction false} FirstStop(messages: seq<FrontendMessage>, answers: seq<Answer>, n: nat)
    requires n <= |messages| == |answers| && !AllServed(messages, answers, n)
    ensures exists i: nat :: StopsAt(messages, answers, n, i)
  {
    if AllServed(messages, answers, n - 1) {
      assert StopsAt(messages, answers, n, n - 1);
    } else {
      FirstStop(messages, answers, n - 1);
      var i: nat :| StopsAt(messages, answers, n - 1, i);
      assert StopsAt(messages, answers, n, i);
    }
  }

  /** How a session ends, for every sequence of messages and answers: it is still open
      exactly if all of them were requests served; otherwise the first message that was
      not decides. */
  lemma SessionEnds(messages: seq<FrontendMessage>, answers: seq<Answer>, n: nat)
    requires n <= |messages| == |answers|
    ensures var s := After(messages, answers, n);
            && (s.end == StillOpen <==> AllServed(messages, answers, n))
            && (s.end == Closed <==> exists i: nat :: StopsAt(messages, answers, n, i) && Closes(messages[i]))
            && (s.end == SessionFailed <==> exists i: nat :: StopsAt(messages, answers, n, i) && Fails(messages[i], answers[i]))
            && (s.end == SessionPanicked <==> exists i: nat :: StopsAt(messages, answers, n, i) && PanicsOn(messages[i], answers[i]))
            && (forall i: nat :: StopsAt(messages, answers, n, i) ==> StoppedBy(s, messages[i], answers[i], i))
  {
    forall i: nat | StopsAt(messages, answers, n, i)
      ensures StoppedBy(After(messages, answers, n), messages[i], answers[i], i)
    {
      StopsNow(messages, answers, n, i);
    }
    if AllServed(messages, answers, n) {
      ServedSoFar(messages, answers, n);
    } else {
      FirstStop(messages, answers, n);
    }
  }

  /** A session that has ended stays as it is. */
  lemma {:induction false} SessionOver(messages: seq<FrontendMessage>, answers: seq<Answer>, i: nat, n: nat)
    requires i <= n <= |messages| == |answers| && !After(messages, answers, i).end.StillOpen?
    ensures After(messages, answers, n) == After(messages, answers, i)
  {
    if i < n {
      SessionOver(messages, answers, i, n - 1);
    }
  }

  /** `process_query`: for each request one message to the manager and one reply. The
      answer to message `i`, if it is a request, is `answers[i]`. */
  method ProcessQuery(messages: seq<FrontendMessage>, answers: seq<Answer>)
    returns (requests: seq<seq<Byte>>, written: seq<seq<Byte>>, end: SessionEnd)
    requires |messages| == |answers|
    ensures Session(requests, written, end) == After(messages, answers, |messages|)
    ensures end == StillOpen <==> AllServed(messages, answers, |messages|)
    ensures end == Closed <==> exists i: nat :: StopsAt(messages, answers, |messages|, i) && Closes(messages[i])
    ensures end == SessionFailed <==> exists i: nat :: StopsAt(messages, answers, |messages|, i) && Fails(messages[i], answers[i])
    ensures end == SessionPanicked <==> exists i: nat :: StopsAt(messages, answers, |messages|, i) && PanicsOn(messages[i], answers[i])
  {
    requests, written, end := [], [], StillOpen;
    var i := 0;
    while i < |messages| && end == StillOpen
      invariant 0 <= i <= |messages|
      invariant Session(requests, written, end) == After(messages, answers, i)
      decreases |messages| - i
    {
      match messages[i] {
        case Terminate => end := Closed;
        case Disconnected => end := Closed;
        case Unexpected => end := SessionFailed;
        case ReadFailed => end := SessionFailed;
        case CopyData(data) =>
          if answers[i] == NotTaken {
            end := SessionFailed;
          } else {
            requests := requests + [data];
            if answers[i] == Hangup {
              end := SessionFailed;
            } else {
              var bytes := SerializeRollbackInfo(answers[i].info);
              if bytes == None {
                end := SessionPanicked;
              } else if !answers[i].writes {
                end := SessionFailed;
              } else {
                written := written + [bytes.value];
              }
            }
          }
      }
      i := i + 1;
    }
    if end != StillOpen {
      SessionOver(messages, answers, i, |messages|);
    }
    SessionEnds(messages, answers, |messages|);
  }
}
