/** The values that travel between the parts of a transaction server: rollback
    reasons, votes and the two peer messages (xactserver/src/lib.rs and
    xactserver/proto/rpc.proto). */
module Messages {

  datatype Option<+T> = None | Some(value: T)

  type Byte = x: int | 0 <= x < 256

  /** Text is kept as its UTF-8 bytes: that is all the server looks at. */
  type Text = seq<Byte>

  type NodeId = nat

  /** The packed 64-bit transaction id; module Ids says how it is packed. */
  type XactId = nat

  datatype DbError = DbError(code: seq<Byte>, severity: Text, message: Text, detail: Text, hint: Text)

  datatype RollbackReason = Db(err: DbError) | Other(text: Text)

  datatype RollbackInfo = RollbackInfo(origin: NodeId, reason: RollbackReason)

  /** A vote without a rollback reason is a "yes". */
  datatype Vote = Vote(from: NodeId, reason: Option<RollbackReason>)

  datatype Message =
    | PrepareMessage(from: NodeId, id: XactId, data: seq<Byte>)
    | VoteMessage(from: NodeId, id: XactId, reason: Option<RollbackReason>)

  /** A message on its way to node `to`. */
  datatype Packet = Packet(to: NodeId, msg: Message)
}
