/**
 * The browser client (public/app.js): the presence view that reconciles the
 * server's notices into a roster, a displayed count and one cursor
 * indicator per remote user, and the drawing board's mouse state machine.
 * DOM elements are modelled by the values they hold.
 */
module Client {
  import opened Protocol
  import opened Shapes

  /** A remote user's cursor element: its colour, its caption and its page position. */
  datatype Indicator = Indicator(color: Color, caption: string, pos: Option<Point>)

  /** A frame as `ws.onmessage` sees it. */
  datatype Incoming =
    | Note(n: Notice)
    | UnknownType   // JSON with a `type` the switch does not handle
    | NotJson       // a document-synchronisation frame: JSON.parse throws

  // ---------------------------------------------------------------------
  // Cursor indicators
  // ---------------------------------------------------------------------

  /** An indicator's label: `name || userId.slice(0, 6)`. */
  function Label(name: string, id: Id): (r: string)
    ensures name != "" ==> r == name
    ensures name == "" ==> r == Prefix(id, 6) && r <= id && |r| <= 6
  {
    if name != "" then name else Prefix(id, 6)
  }

  /** The page position of a canvas-local point, for the canvas at `origin`. */
  function Offset(origin: Point, p: Point): (r: Point)
    ensures r.x - origin.x == p.x && r.y - origin.y == p.y
  {
    Point(origin.x + p.x, origin.y + p.y)
  }

  /**
   * `updateOtherUserCursor`: the indicator of `id` is created (with `color`
   * and the label) if absent, then moved to the page position of `cursor`.
   * When `cursor` is absent, reading `cursor.x` throws after the indicator
   * exists, so its position stays as it was.
   */
  function Track(ind: map<Id, Indicator>, id: Id, cursor: Option<Point>,
                 color: Color, name: string, origin: Point): (r: map<Id, Indicator>)
    ensures r.Keys == ind.Keys + {id}
    ensures forall k | k in ind && k != id :: r[k] == ind[k]
    ensures id in ind ==> r[id].color == ind[id].color && r[id].caption == ind[id].caption
    ensures id !in ind ==> r[id].color == color && r[id].caption == Label(name, id)
    ensures cursor.Some? ==> r[id].pos == Some(Offset(origin, cursor.value))
    ensures cursor.None? ==> r[id].pos == if id in ind then ind[id].pos else None
  {
    var el := if id in ind then ind[id] else Indicator(color, Label(name, id), None);
    ind[id := if cursor.Some? then el.(pos := Some(Offset(origin, cursor.value))) else el]
  }

  /** A repeated cursor notice changes nothing more: indicators are keyed by id. */
  lemma TrackIdempotent(ind: map<Id, Indicator>, id: Id, cursor: Option<Point>,
                        color: Color, name: string, origin: Point)
    ensures Track(Track(ind, id, cursor, color, name, origin), id, cursor, color, name, origin)
         == Track(ind, id, cursor, color, name, origin)
  {
  }

  /** A later cursor notice with another colour or name keeps the first colour and caption. */
  lemma TrackKeepsIdentity(ind: map<Id, Indicator>, id: Id, p: Point, q: Point,
                           c1: Color, n1: string, c2: Color, n2: string, origin: Point)
    ensures var once := Track(ind, id, Some(p), c1, n1, origin);
            var twice := Track(once, id, Some(q), c2, n2, origin);
            twice[id] == once[id].(pos := Some(Offset(origin, q)))
  {
  }

  // ---------------------------------------------------------------------
  // Roster reconciliation
  // ---------------------------------------------------------------------

  /**
   * The roster after the `existing-users` list `users` has been walked in
   * order, each user other than `self` set under its id.
   */
  function MergeRoster(roster: map<Id, Record>, users: seq<Record>, self: Option<Id>): (r: map<Id, Record>)
    ensures roster.Keys <= r.Keys
    ensures |r| <= |roster| + |users|
  {
    if users == [] then roster
    else
      var u := users[|users| - 1];
      var r := MergeRoster(roster, users[..|users| - 1], self);
      if Some(u.id) != self then r[u.id := u] else r
  }

  /** The last user in `users` with id `k`, if any. */
  function LastWith(users: seq<Record>, k: Id): (r: Option<Record>)
    ensures r.Some? ==> r.value in users && r.value.id == k
    ensures r.Some? ==> exists i | 0 <= i < |users| ::
      users[i] == r.value && forall j | i < j < |users| :: users[j].id != k
  {
    if users == [] then None
    else if users[|users| - 1].id == k then Some(users[|users| - 1])
    else LastWith(users[..|users| - 1], k)
  }

  lemma {:induction false} LastWithNone(users: seq<Record>, k: Id)
    ensures LastWith(users, k).None? <==> forall u | u in users :: u.id != k
  {
    if users != [] {
      var front := users[..|users| - 1];
      LastWithNone(front, k);
      assert users == front + [users[|users| - 1]];
    }
  }

  /**
   * What the merged roster holds under `k`: the last listed user with that
   * id, unless `k` is the local user, and otherwise what the roster held.
   */
  lemma {:induction false} MergeRosterAt(roster: map<Id, Record>, users: seq<Record>, self: Option<Id>, k: Id)
    ensures var r := MergeRoster(roster, users, self);
            if Some(k) != self && LastWith(users, k).Some? then k in r && r[k] == LastWith(users, k).value
            else (k in r <==> k in roster) && (k in r ==> r[k] == roster[k])
  {
    if users != [] {
      MergeRosterAt(roster, users[..|users| - 1], self, k);
    }
  }

  /** The merged roster's ids: the old ones and every listed id but the local user's. */
  lemma MergeRosterKeys(roster: map<Id, Record>, users: seq<Record>, self: Option<Id>)
    ensures MergeRoster(roster, users, self).Keys
         == roster.Keys + (set u | u in users && Some(u.id) != self :: u.id)
  {
    var r := MergeRoster(roster, users, self);
    var listed := set u | u in users && Some(u.id) != self :: u.id;
    forall k ensures k in r <==> k in roster || k in listed {
      MergeRosterAt(roster, users, self, k);
      LastWithNone(users, k);
      if k in listed {
        var u :| u in users && Some(u.id) != self && u.id == k;
      }
    }
  }

  /** Processing the same `existing-users` list twice gives the roster of processing it once. */
  lemma MergeRosterIdempotent(roster: map<Id, Record>, users: seq<Record>, self: Option<Id>)
    ensures MergeRoster(MergeRoster(roster, users, self), users, self) == MergeRoster(roster, users, self)
  {
    var once := MergeRoster(roster, users, self);
    var twice := MergeRoster(once, users, self);
    forall k ensures (k in twice <==> k in once) && (k in twice ==> twice[k] == once[k]) {
      MergeRosterAt(roster, users, self, k);
      MergeRosterAt(once, users, self, k);
    }
  }

  /**
   * The roster after a notice: `user-joined` sets the user unless it is absent
   * or the local user, `user-left` deletes the id, `existing-users` merges
   * its list; `init` and `cursor` leave the roster alone.
   */
  function RosterAfter(roster: map<Id, Record>, n: Notice, self: Option<Id>): (r: map<Id, Record>)
    ensures n.Init? || n.CursorNote? || n == UserJoined(None) ==> r == roster
    ensures n.UserJoined? && n.user.Some? && Some(n.user.value.id) != self ==>
      && n.user.value.id in r && r[n.user.value.id] == n.user.value
      && forall k | k in r && k != n.user.value.id :: k in roster && r[k] == roster[k]
    ensures n.UserJoined? && (n.user.None? || Some(n.user.value.id) == self) ==> r == roster
    ensures n.UserLeft? ==> n.userId !in r && r.Keys == roster.Keys - {n.userId}
    ensures n.UserLeft? ==> forall k | k in r :: r[k] == roster[k]
    ensures roster.Keys - (if n.UserLeft? then {n.userId} else {}) <= r.Keys
  {
    match n
    case UserJoined(Some(u)) => if Some(u.id) != self then roster[u.id := u] else roster
    case UserLeft(id) => roster - {id}
    case ExistingUsers(users) => MergeRoster(roster, users, self)
    case _ => roster
  }

  /** Whether handling `n` rewrites the displayed count. */
  predicate CountsUsers(n: Notice, self: Option<Id>): (b: bool)
    ensures n.Init? || n.CursorNote? ==> !b
    ensures n.UserLeft? || n.ExistingUsers? ==> b
    ensures n.UserJoined? ==> (b <==> n.user.Some? && Some(n.user.value.id) != self)
  {
    match n
    case UserJoined(Some(u)) => Some(u.id) != self
    case UserLeft(_) => true
    case ExistingUsers(_) => true
    case _ => false
  }

  /** No notice puts the local user into the roster. */
  lemma RosterExcludesSelf(roster: map<Id, Record>, n: Notice, self: Id)
    requires self !in roster
    ensures self !in RosterAfter(roster, n, Some(self))
  {
    if n.ExistingUsers? {
      MergeRosterKeys(roster, n.users, Some(self));
    }
  }

  /**
   * The roster is keyed by id: delivering any notice a second time leaves it
   * as the first delivery did, so repeated joins never add entries.
   */
  lemma RosterIdempotent(roster: map<Id, Record>, n: Notice, self: Option<Id>)
    ensures RosterAfter(RosterAfter(roster, n, self), n, self) == RosterAfter(roster, n, self)
  {
    if n.ExistingUsers? {
      MergeRosterIdempotent(roster, n.users, self);
    }
  }

  /** The roster's ids after a notice; a join adds at most one entry, a leave removes at most one. */
  lemma RosterSize(roster: map<Id, Record>, n: Notice, self: Option<Id>)
    ensures n.UserJoined? ==> |roster| <= |RosterAfter(roster, n, self)| <= |roster| + 1
    ensures n.UserLeft? ==> |RosterAfter(roster, n, self)| == if n.userId in roster then |roster| - 1 else |roster|
    ensures !n.UserJoined? && !n.UserLeft? && !n.ExistingUsers? ==> RosterAfter(roster, n, self) == roster
  {
    match n
    case UserJoined(Some(u)) =>
      if Some(u.id) != self {
        if u.id in roster {
          assert roster[u.id := u].Keys == roster.Keys;
        } else {
          assert roster[u.id := u].Keys == roster.Keys + {u.id};
        }
      }
    case UserLeft(id) =>
      if id in roster {
        assert (roster - {id}).Keys == roster.Keys - {id};
      } else {
        assert roster - {id} == roster;
      }
    case _ =>
  }

  // ---------------------------------------------------------------------
  // The presence view
  // ---------------------------------------------------------------------

  class PresenceView {
    /** `currentUser.id`, null until `init` arrives. */
    var currentId: Option<Id>
    /** `currentUser.color`. */
    var currentColor: Color
    /** `otherUsers`: the remote users' records, keyed by id. */
    var otherUsers: map<Id, Record>
    /** The cursor elements of remote users, keyed by user id. */
    var cursors: map<Id, Indicator>
    /** The number shown as `Users: N`; `None` until first written. */
    var shownCount: Option<nat>

    /** Once shown, the count is the roster's size plus the local user. */
    ghost predicate Valid()
      reads this
    {
      shownCount.Some? ==> shownCount.value == |otherUsers| + 1
    }

    /** Whether the local user is outside the roster. */
    ghost predicate SelfAbsent()
      reads this
    {
      currentId.None? || currentId.value !in otherUsers
    }

    constructor ()
      ensures Valid()
      ensures currentId == None && currentColor == "#3498db"
      ensures otherUsers == map[] && cursors == map[] && shownCount == None
    {
      currentId, currentColor := None, "#3498db";
      otherUsers, cursors, shownCount := map[], map[], None;
    }

    /** `updateActiveUsersCount`. */
    method UpdateActiveUsersCount()
      modifies this`shownCount
      ensures shownCount == Some(|otherUsers| + 1)
    {
      shownCount := Some(|otherUsers| + 1);
    }

    /** `updateOtherUserCursor`, for the canvas at `origin` on the page. */
    method UpdateOtherUserCursor(id: Id, cursor: Option<Point>, color: Color, name: string, origin: Point)
      modifies this`cursors
      ensures cursors == Track(old(cursors), id, cursor, color, name, origin)
    {
      if id !in cursors {
        cursors := cursors[id := Indicator(color, Label(name, id), None)];
      }
      if cursor.Some? {
        cursors := cursors[id := cursors[id].(pos := Some(Offset(origin, cursor.value)))];
      }
    }

    /** `removeUserCursor`: delete the indicator if there is one. */
    method RemoveUserCursor(id: Id)
      modifies this`cursors
      ensures cursors == old(cursors) - {id}
    {
      cursors := cursors - {id};
    }

    /** The `existing-users` case: every listed user but the local one is set, in order. */
    method MergeExisting(users: seq<Record>)
      modifies this`otherUsers
      ensures otherUsers == MergeRoster(old(otherUsers), users, currentId)
    {
      var i := 0;
      while i < |users|
        invariant 0 <= i <= |users|
        invariant otherUsers == MergeRoster(old(otherUsers), users[..i], currentId)
      {
        var user := users[i];
        if Some(user.id) != currentId {
          otherUsers := otherUsers[user.id := user];
        }
        i := i + 1;
        assert users[..i][..i - 1] == users[..i - 1];
      }
      assert users[..i] == users;
    }

    /** The `user-joined` case: another user's record is set and the count rewritten. */
    method JoinUser(user: Option<Record>)
      requires Valid()
      modifies this`otherUsers, this`shownCount
      ensures Valid()
      ensures otherUsers == RosterAfter(old(otherUsers), UserJoined(user), currentId)
      ensures shownCount == if CountsUsers(UserJoined(user), currentId)
                            then Some(|otherUsers| + 1) else old(shownCount)
      ensures old(SelfAbsent()) ==> SelfAbsent()
    {
      if user.Some? && Some(user.value.id) != currentId {
        otherUsers := otherUsers[user.value.id := user.value];
        UpdateActiveUsersCount();
      }
    }

    /** The roster part of the `user-left` case: the id is deleted and the count rewritten. */
    method LeaveUser(id: Id)
      requires Valid()
      modifies this`otherUsers, this`shownCount
      ensures Valid()
      ensures otherUsers == RosterAfter(old(otherUsers), UserLeft(id), currentId)
      ensures shownCount == Some(|otherUsers| + 1)
      ensures old(SelfAbsent()) ==> SelfAbsent()
    {
      otherUsers := otherUsers - {id};
      UpdateActiveUsersCount();
    }

    /** The `existing-users` case: the list is merged and the count rewritten. */
    method ExistingUsersArrive(users: seq<Record>)
      requires Valid()
      modifies this`otherUsers, this`shownCount
      ensures Valid()
      ensures otherUsers == RosterAfter(old(otherUsers), ExistingUsers(users), currentId)
      ensures shownCount == Some(|otherUsers| + 1)
      ensures old(SelfAbsent()) ==> SelfAbsent()
    {
      MergeExisting(users);
      UpdateActiveUsersCount();
      if currentId.Some? && currentId.value !in old(otherUsers) {
        RosterExcludesSelf(old(otherUsers), ExistingUsers(users), currentId.value);
      }
    }

    /**
     * `handleWebSocketMessage` on a parsed frame. `init` sets the local
     * user's id and colour; `cursor` only moves indicators; the roster
     * notices reconcile `otherUsers` and rewrite the count; everything else
     * changes nothing.
     */
    method Handle(msg: Incoming, origin: Point)
      requires Valid()
      modifies this
      ensures Valid()
      ensures msg.Note? && msg.n.Init? ==>
        currentId == Some(msg.n.userId) && currentColor == msg.n.color
      ensures !(msg.Note? && msg.n.Init?) ==>
        currentId == old(currentId) && currentColor == old(currentColor)
      ensures msg.Note? ==> otherUsers == RosterAfter(old(otherUsers), msg.n, old(currentId))
      ensures msg.Note? && msg.n.CursorNote? ==>
        cursors == Track(old(cursors), msg.n.userId, msg.n.cursor, msg.n.color, msg.n.name, origin)
      ensures msg.Note? && msg.n.UserLeft? ==> cursors == old(cursors) - {msg.n.userId}
      ensures !(msg.Note? && (msg.n.CursorNote? || msg.n.UserLeft?)) ==> cursors == old(cursors)
      ensures shownCount == if msg.Note? && CountsUsers(msg.n, old(currentId))
                            then Some(|otherUsers| + 1) else old(shownCount)
      ensures !msg.Note? ==> otherUsers == old(otherUsers)
      ensures !(msg.Note? && msg.n.Init?) && old(SelfAbsent()) ==> SelfAbsent()
    {
      if msg.Note? {
        match msg.n
        case Init(id, color) =>
          currentId := Some(id);
          currentColor := color;
        case CursorNote(id, cursor, color, name) =>
          UpdateOtherUserCursor(id, cursor, color, name, origin);
        case UserJoined(user) =>
          JoinUser(user);
        case UserLeft(id) =>
          RemoveUserCursor(id);
          LeaveUser(id);
        case ExistingUsers(users) =>
          ExistingUsersArrive(users);
      }
    }
  }

  // ---------------------------------------------------------------------
  // The drawing board
  // ---------------------------------------------------------------------

  /** An effect the client issues on the shared document's shape array. */
  datatype DocOp = Push(shape: Shape) | DeleteAll

  class Board {
    /** `currentTool`. */
    var tool: Tool
    /** `isDrawing`. */
    var isDrawing: bool
    /** `startX`, `startY`: the canvas-local point where the drag began. */
    var startX: real
    var startY: real
    /** `shapes`: the shapes this client draws on its canvas. */
    var shapes: seq<Shape>
    /** The pushes and deletions this client has issued on the shared array. */
    var docOps: seq<DocOp>

    /** Every shape this client publishes is well formed. */
    ghost predicate Valid()
      reads this
    {
      forall k | 0 <= k < |docOps| :: docOps[k].Push? ==> WellFormed(docOps[k].shape)
    }

    /** The page's start state, after `initYjs` has copied the shared array into `shapes`. */
    constructor (initial: seq<Shape>)
      ensures Valid()
      ensures tool == Select && !isDrawing && shapes == initial && docOps == []
    {
      tool, isDrawing := Select, false;
      startX, startY := 0.0, 0.0;
      shapes, docOps := initial, [];
    }

    /** A click on a tool button. */
    method SelectTool(t: Tool)
      modifies this`tool
      ensures tool == t
    {
      tool := t;
    }

    /** `handleMouseDown` at page point `at`, for the canvas whose top-left is `rect`. */
    method MouseDown(at: Point, rect: Point)
      modifies this`isDrawing, this`startX, this`startY
      ensures tool == Select ==>
        isDrawing == old(isDrawing) && startX == old(startX) && startY == old(startY)
      ensures tool != Select ==>
        isDrawing && startX == at.x - rect.x && startY == at.y - rect.y
    {
      if tool == Select {
        return;
      }
      startX := at.x - rect.x;
      startY := at.y - rect.y;
      isDrawing := true;
    }

    /**
     * `handleMouseUp` (also the `mouseleave` handler) at page point `at`.
     * The id and page inputs of the new shape and the local user's id are
     * passed in. Unless a drag is in progress with a drawing tool, nothing
     * happens; otherwise the shape, if the drag was large enough, is pushed
     * to the shared array and appended to `shapes`, and the drag ends.
     */
    method MouseUp(at: Point, rect: Point, style: Style, id: real, author: Option<Id>)
      requires Valid()
      modifies this`isDrawing, this`shapes, this`docOps
      ensures Valid()
      ensures !old(isDrawing) || tool == Select ==>
        isDrawing == old(isDrawing) && shapes == old(shapes) && docOps == old(docOps)
      ensures old(isDrawing) && tool != Select ==>
        var made := CreateShape(startX, startY, at.x - rect.x, at.y - rect.y, tool, style, id, author);
        && !isDrawing
        && shapes == old(shapes) + (if made.Some? then [made.value] else [])
        && docOps == old(docOps) + (if made.Some? then [Push(made.value)] else [])
    {
      if !isDrawing || tool == Select {
        return;
      }
      var shape := CreateShape(startX, startY, at.x - rect.x, at.y - rect.y, tool, style, id, author);
      if shape.Some? {
        docOps := docOps + [Push(shape.value)];
        shapes := shapes + [shape.value];
      }
      isDrawing := false;
    }

    /** `clearCanvas`, with the user's answer to the confirmation dialog. */
    method ClearCanvas(confirmed: bool)
      requires Valid()
      modifies this`shapes, this`docOps
      ensures Valid()
      ensures confirmed ==> shapes == [] && docOps == old(docOps) + [DeleteAll]
      ensures !confirmed ==> shapes == old(shapes) && docOps == old(docOps)
    {
      if confirmed {
        docOps := docOps + [DeleteAll];
        shapes := [];
      }
    }

    /** The shared array's observer: a remote change only redraws the canvas. */
    method OnRemoteChange()
      ensures shapes == old(shapes) && tool == old(tool) && isDrawing == old(isDrawing)
    {
    }
  }
}
