/**
 * The presence protocol shared by the relay server and the browser client:
 * session identifiers, presence records, and the control messages exchanged
 * as JSON objects, here as datatypes (no JSON encoding is modelled).
 */
module Protocol {

  datatype Option<T> = None | Some(value: T)

  /** A session identifier, generated by the server per connection. */
  type Id = string

  /** A colour as a CSS hex string, e.g. "#FF6B6B". */
  type Color = string

  /** A point in canvas-local pixel coordinates. */
  datatype Point = Point(x: real, y: real)

  /**
   * A presence record as the server stores it. The `cursor` message stores
   * no name; the `user-joined` message stores no cursor.
   */
  datatype Record = Record(id: Id, name: Option<string>, color: Color, cursor: Option<Point>)

  /**
   * A message from a client to the server, classified the way the server's
   * handler classifies it. Absent JSON fields are `None`.
   */
  datatype Inbound =
    | CursorIn(cursor: Option<Point>, color: Option<string>, name: Option<string>)
    | UserJoinedIn(name: Option<string>, color: Option<string>)
    | OtherIn      // valid JSON whose `type` is neither "cursor" nor "user-joined"
    | Unparsable   // JSON.parse failed: a frame of the document-synchronisation protocol

  /** A control message from the server to a client. */
  datatype Notice =
    | Init(userId: Id, color: Color)
    | CursorNote(userId: Id, cursor: Option<Point>, color: Color, name: string)
    | ExistingUsers(users: seq<Record>)
    | UserJoined(user: Option<Record>)
    | UserLeft(userId: Id)

  /** JavaScript's `a || b` where `a` is an optional string: the empty string is falsy. */
  function Or(a: Option<string>, b: string): (r: string)
    ensures a.Some? && a.value != "" ==> r == a.value
    ensures a.None? || a.value == "" ==> r == b
    ensures b != "" ==> r != ""
  {
    if a.Some? && a.value != "" then a.value else b
  }

  /** `s.slice(0, n)`: the first `n` characters, or all of `s` when it is shorter. */
  function Prefix(s: string, n: nat): (r: string)
    ensures |r| <= n && |r| <= |s|
    ensures |r| == n || r == s
    ensures r <= s
  {
    if |s| <= n then s else s[..n]
  }

  /** The server's default display name, `User ${userId.slice(0, 4)}`. */
  function DefaultName(id: Id): (r: string)
    ensures 5 <= |r| <= 9 && r[..5] == "User " && r[5..] <= id
    ensures |id| >= 4 ==> |r| == 9
    ensures |id| < 4 ==> r[5..] == id
  {
    "User " + Prefix(id, 4)
  }

  /** The id that a notice attributes its content to, if any. */
  function Author(n: Notice): Option<Id>
  {
    match n
    case CursorNote(u, _, _, _) => Some(u)
    case UserJoined(Some(rec)) => Some(rec.id)
    case _ => None
  }
}
