/**
 * The server's presence relay (server.js): the registry of presence records
 * keyed by connection id, the set of connected sockets, and the handlers for
 * connection open, inbound message and close. Each handler runs to
 * completion before the next event, so each is one method of `Server`.
 * What the sockets are sent is recorded, in order, in `outbox`.
 */
module Relay {
  import opened Protocol
  import Palette

  /** A socket in the server's client set; `open` is `readyState === OPEN`. */
  datatype Conn = Conn(id: Id, open: bool)

  /** One control message sent to one client. */
  datatype Delivery = Delivery(to: Id, notice: Notice)

  function Ids(cs: seq<Conn>): set<Id>
  {
    set c | c in cs :: c.id
  }

  ghost predicate DistinctIds(cs: seq<Conn>)
  {
    forall i, j :: 0 <= i < j < |cs| ==> cs[i].id != cs[j].id
  }

  ghost predicate Distinct<T>(s: seq<T>)
  {
    forall i, j :: 0 <= i < j < |s| ==> s[i] != s[j]
  }

  // ---------------------------------------------------------------------
  // Fan-out: what `broadcast` and `broadcastToOthers` send
  // ---------------------------------------------------------------------

  /**
   * The deliveries of one pass over the client set `cs`, in its order: one
   * per OPEN client, skipping the client `except` (the sender, for
   * `broadcastToOthers`; `None` for `broadcast`).
   */
  function Fanout(cs: seq<Conn>, except: Option<Id>, n: Notice): (r: seq<Delivery>)
    ensures |r| <= |cs|
  {
    if cs == [] then []
    else
      var c := cs[|cs| - 1];
      Fanout(cs[..|cs| - 1], except, n)
        + (if c.open && except != Some(c.id) then [Delivery(c.id, n)] else [])
  }

  /** A fan-out reaches exactly the open clients other than `except`, with `n`. */
  lemma {:induction false} FanoutReaches(cs: seq<Conn>, except: Option<Id>, n: Notice, d: Delivery)
    ensures d in Fanout(cs, except, n)
        <==> d.notice == n && Conn(d.to, true) in cs && except != Some(d.to)
  {
    if cs != [] {
      var front := cs[..|cs| - 1];
      FanoutReaches(front, except, n, d);
      assert cs == front + [cs[|cs| - 1]];
    }
  }

  /** Every delivery of a fan-out carries `n` to an open client other than `except`. */
  lemma FanoutDeliveries(cs: seq<Conn>, except: Option<Id>, n: Notice)
    ensures forall d | d in Fanout(cs, except, n) ::
      d.notice == n && Conn(d.to, true) in cs && except != Some(d.to) && d.to in Ids(cs)
  {
    forall d | d in Fanout(cs, except, n)
      ensures d.notice == n && Conn(d.to, true) in cs && except != Some(d.to) && d.to in Ids(cs)
    {
      FanoutReaches(cs, except, n, d);
    }
  }

  /** With distinct ids, every eligible client receives the notice exactly once. */
  lemma {:induction false} FanoutOnce(cs: seq<Conn>, except: Option<Id>, n: Notice, x: Id)
    requires DistinctIds(cs)
    ensures multiset(Fanout(cs, except, n))[Delivery(x, n)]
         == if Conn(x, true) in cs && except != Some(x) then 1 else 0
  {
    if cs != [] {
      var front, c := cs[..|cs| - 1], cs[|cs| - 1];
      assert cs == front + [c];
      FanoutOnce(front, except, n, x);
      if c.id == x {
        forall i | 0 <= i < |front| ensures front[i] != Conn(x, true) {
          assert cs[i].id != cs[|cs| - 1].id;
        }
      }
    }
  }

  /** The sender of a `broadcastToOthers` never receives anything from it. */
  lemma SenderNeverEchoed(cs: seq<Conn>, sender: Id, n: Notice, m: Notice)
    ensures Delivery(sender, m) !in Fanout(cs, Some(sender), n)
  {
    FanoutReaches(cs, Some(sender), n, Delivery(sender, m));
  }

  /** `ws.send` to one socket: delivered only while that socket is open. */
  function Direct(cs: seq<Conn>, to: Id, n: Notice): (r: seq<Delivery>)
    ensures r == [Delivery(to, n)] || r == []
    ensures Delivery(to, n) in r <==> Conn(to, true) in cs
  {
    if Conn(to, true) in cs then [Delivery(to, n)] else []
  }

  // ---------------------------------------------------------------------
  // Per-client view of the outbox
  // ---------------------------------------------------------------------

  /** The notices sent to client `x`, in the order they were sent. */
  function Inbox(out: seq<Delivery>, x: Id): seq<Notice>
  {
    if out == [] then []
    else
      var d := out[|out| - 1];
      Inbox(out[..|out| - 1], x) + (if d.to == x then [d.notice] else [])
  }

  lemma {:induction false} InboxAppend(s: seq<Delivery>, t: seq<Delivery>, x: Id)
    ensures Inbox(s + t, x) == Inbox(s, x) + Inbox(t, x)
  {
    if t == [] {
      assert s + t == s;
    } else {
      var front := t[..|t| - 1];
      InboxAppend(s, front, x);
      assert (s + t)[..|s + t| - 1] == s + front;
      assert (s + t)[|s + t| - 1] == t[|t| - 1];
      assert Inbox(t, x) == Inbox(front, x) + Inbox([t[|t| - 1]], x);
    }
  }

  lemma {:induction false} InboxEmpty(s: seq<Delivery>, x: Id)
    requires forall d | d in s :: d.to != x
    ensures Inbox(s, x) == []
  {
    if s != [] {
      InboxEmpty(s[..|s| - 1], x);
    }
  }

  /** The first control message client `x` received is its own `init`. */
  ghost predicate InitFirst(out: seq<Delivery>, x: Id)
  {
    var inbox := Inbox(out, x);
    |inbox| > 0 && inbox[0].Init? && inbox[0].userId == x
  }

  /** Sending more never changes what a client received first. */
  lemma AppendKeepsInitFirst(s: seq<Delivery>, t: seq<Delivery>, x: Id)
    requires InitFirst(s, x)
    ensures InitFirst(s + t, x)
  {
    InboxAppend(s, t, x);
  }

  // ---------------------------------------------------------------------
  // Sequence helpers for the client set and the registry's key order
  // ---------------------------------------------------------------------

  /** The client set after the socket `id` has been deleted from it. */
  function Detach(cs: seq<Conn>, id: Id): (r: seq<Conn>)
    ensures |r| <= |cs|
  {
    if cs == [] then []
    else
      var c := cs[|cs| - 1];
      Detach(cs[..|cs| - 1], id) + (if c.id == id then [] else [c])
  }

  lemma {:induction false} DetachSpec(cs: seq<Conn>, id: Id)
    requires DistinctIds(cs)
    ensures DistinctIds(Detach(cs, id))
    ensures forall c :: c in Detach(cs, id) <==> c in cs && c.id != id
    ensures Ids(Detach(cs, id)) == Ids(cs) - {id}
  {
    if cs != [] {
      var front, c := cs[..|cs| - 1], cs[|cs| - 1];
      assert cs == front + [c];
      DetachSpec(front, id);
      if c.id != id {
        var r := Detach(front, id);
        forall i | 0 <= i < |front| ensures front[i].id != c.id {
          assert cs[i].id != cs[|cs| - 1].id;
        }
        assert c.id !in Ids(front);
        forall i, j | 0 <= i < j < |r + [c]| ensures (r + [c])[i].id != (r + [c])[j].id {
          if j == |r| {
            assert (r + [c])[i] in r;
          }
        }
      }
    }
  }

  /** The client set after socket `id` has left the OPEN state. */
  function MarkClosing(cs: seq<Conn>, id: Id): (r: seq<Conn>)
    ensures |r| == |cs|
    ensures forall i | 0 <= i < |cs| :: r[i].id == cs[i].id
    ensures forall i | 0 <= i < |cs| :: r[i].open == (cs[i].open && cs[i].id != id)
  {
    seq(|cs|, i requires 0 <= i < |cs| => if cs[i].id == id then Conn(id, false) else cs[i])
  }

  /** `Map.delete` on the key order: `s` without `x`, the rest in order. */
  function Remove(s: seq<Id>, x: Id): (r: seq<Id>)
    ensures |r| <= |s|
    ensures x !in s ==> r == s
  {
    if s == [] then []
    else
      var y := s[|s| - 1];
      Remove(s[..|s| - 1], x) + (if y == x then [] else [y])
  }

  lemma {:induction false} RemoveSpec(s: seq<Id>, x: Id)
    requires Distinct(s)
    ensures Distinct(Remove(s, x))
    ensures forall y :: y in Remove(s, x) <==> y in s && y != x
  {
    if s != [] {
      var front, y := s[..|s| - 1], s[|s| - 1];
      assert s == front + [y];
      RemoveSpec(front, x);
      var r := Remove(front, x);
      if y != x {
        forall i | 0 <= i < |front| ensures front[i] != y {
          assert s[i] != s[|s| - 1];
        }
        forall i, j | 0 <= i < j < |r + [y]| ensures (r + [y])[i] != (r + [y])[j] {
          if j == |r| {
            assert (r + [y])[i] in r;
          }
        }
      }
    }
  }

  lemma {:induction false} DistinctCard(s: seq<Id>)
    requires Distinct(s)
    ensures |set x | x in s| == |s|
  {
    if s != [] {
      var front, y := s[..|s| - 1], s[|s| - 1];
      assert s == front + [y];
      DistinctCard(front);
      forall i | 0 <= i < |front| ensures front[i] != y {
        assert s[i] != s[|s| - 1];
      }
      assert (set x | x in s) == (set x | x in front) + {y};
    }
  }

  // ---------------------------------------------------------------------
  // The registry snapshot sent as `existing-users`
  // ---------------------------------------------------------------------

  /** `Array.from(activeUsers.values())`: the records in key insertion order. */
  function Values(order: seq<Id>, m: map<Id, Record>): (u: seq<Record>)
    requires forall k | k in order :: k in m
    ensures |u| == |order|
    ensures forall i | 0 <= i < |order| :: u[i] == m[order[i]]
  {
    seq(|order|, i requires 0 <= i < |order| => m[order[i]])
  }

  /**
   * The snapshot holds every record of the registry exactly once and nothing
   * else, one entry per registered id.
   */
  lemma ExistingUsersExact(order: seq<Id>, m: map<Id, Record>)
    requires Distinct(order)
    requires forall k :: k in order <==> k in m
    requires forall k | k in m :: m[k].id == k
    ensures |Values(order, m)| == |m|
    ensures forall i, j | 0 <= i < j < |Values(order, m)| ::
      Values(order, m)[i].id != Values(order, m)[j].id
    ensures forall r :: r in Values(order, m) <==> r in m.Values
  {
    var u := Values(order, m);
    DistinctCard(order);
    assert (set x | x in order) == m.Keys;
    forall r | r in m.Values ensures r in u {
      var k :| k in m && m[k] == r;
      var i :| 0 <= i < |order| && order[i] == k;
      assert u[i] == r;
    }
  }

  /** Every delivery in `t` is attributed to `sender` or to no one. */
  ghost predicate AuthoredBy(t: seq<Delivery>, sender: Id)
  {
    forall d | d in t :: Author(d.notice) == None || Author(d.notice) == Some(sender)
  }

  lemma FanoutAuthored(cs: seq<Conn>, except: Option<Id>, n: Notice, sender: Id)
    requires Author(n) == None || Author(n) == Some(sender)
    ensures AuthoredBy(Fanout(cs, except, n), sender)
  {
    FanoutDeliveries(cs, except, n);
  }

  lemma AuthoredAfter(s: seq<Delivery>, t: seq<Delivery>, sender: Id)
    requires AuthoredBy(t, sender)
    ensures AuthoredBy((s + t)[|s|..], sender)
  {
    assert (s + t)[|s|..] == t;
  }

  /** Two consecutive batches attributed to `sender` make one. */
  lemma AuthoredJoin(s: seq<Delivery>, t: seq<Delivery>, v: seq<Delivery>, sender: Id)
    requires AuthoredBy((s + t)[|s|..], sender)
    requires AuthoredBy(v, sender)
    ensures AuthoredBy((s + t + v)[|s|..], sender)
  {
    assert (s + t)[|s|..] == t;
    assert (s + t + v)[|s|..] == t + v;
  }

  // ---------------------------------------------------------------------
  // The server's invariant, in three parts, and how each event keeps it
  // ---------------------------------------------------------------------

  /**
   * The client set holds each connection once; every id it holds was
   * assigned by the server and has not closed.
   */
  ghost predicate ClientsOk(cs: seq<Conn>, seen: set<Id>, departed: set<Id>)
  {
    DistinctIds(cs) && Ids(cs) <= seen && departed <= seen && departed !! Ids(cs)
  }

  /**
   * The registry holds at most one record per live connection, each record
   * under its own id, and `order` lists its keys once each.
   */
  ghost predicate RegistryOk(order: seq<Id>, m: map<Id, Record>, cs: seq<Conn>)
  {
    && Distinct(order)
    && (forall k :: k in order <==> k in m)
    && m.Keys <= Ids(cs)
    && (forall k | k in m :: m[k].id == k)
  }

  /** Messages go only to assigned ids, and each such client received `init` first. */
  ghost predicate OutboxOk(out: seq<Delivery>, seen: set<Id>)
  {
    && (forall d | d in out :: d.to in seen)
    && (forall x {:trigger InitFirst(out, x)} | x in seen :: InitFirst(out, x))
  }

  /** Sending deliveries to assigned ids keeps `OutboxOk`. */
  lemma OutboxGrows(s: seq<Delivery>, t: seq<Delivery>, seen: set<Id>)
    requires OutboxOk(s, seen)
    requires forall d | d in t :: d.to in seen
    ensures OutboxOk(s + t, seen)
  {
    forall x | x in seen ensures InitFirst(s + t, x) {
      AppendKeepsInitFirst(s, t, x);
    }
  }

  /** A fan-out over assigned ids can be sent while keeping `OutboxOk`. */
  lemma OutboxFanout(s: seq<Delivery>, cs: seq<Conn>, except: Option<Id>, n: Notice, seen: set<Id>)
    requires OutboxOk(s, seen)
    requires Ids(cs) <= seen
    ensures OutboxOk(s + Fanout(cs, except, n), seen)
  {
    FanoutDeliveries(cs, except, n);
    OutboxGrows(s, Fanout(cs, except, n), seen);
  }

  /** A fresh id whose first message is its `init` satisfies `OutboxOk`. */
  lemma OutboxWelcomes(s: seq<Delivery>, seen: set<Id>, id: Id, c: Color)
    requires OutboxOk(s, seen)
    requires id !in seen
    ensures OutboxOk(s + [Delivery(id, Init(id, c))], seen + {id})
  {
    var t := [Delivery(id, Init(id, c))];
    InboxEmpty(s, id);
    InboxAppend(s, t, id);
    forall x | x in seen ensures InitFirst(s + t, x) {
      AppendKeepsInitFirst(s, t, x);
    }
  }

  /** Adding a socket with a fresh id keeps `ClientsOk` and the registry bound. */
  lemma ClientsConnect(cs: seq<Conn>, seen: set<Id>, departed: set<Id>, id: Id)
    requires ClientsOk(cs, seen, departed)
    requires id !in seen
    ensures ClientsOk(cs + [Conn(id, true)], seen + {id}, departed)
    ensures Ids(cs + [Conn(id, true)]) == Ids(cs) + {id}
  {
    var r := cs + [Conn(id, true)];
    forall i, j | 0 <= i < j < |r| ensures r[i].id != r[j].id {
      if j == |cs| {
        assert r[i] in cs;
      }
    }
    assert Ids(r) == Ids(cs) + {id};
  }

  /** Marking a socket as closing changes no id in the client set. */
  lemma ClosingKeepsIds(cs: seq<Conn>, id: Id)
    ensures Ids(MarkClosing(cs, id)) == Ids(cs)
    ensures DistinctIds(cs) ==> DistinctIds(MarkClosing(cs, id))
  {
    var r := MarkClosing(cs, id);
    forall x ensures x in Ids(r) <==> x in Ids(cs) {
      if x in Ids(cs) {
        var i :| 0 <= i < |cs| && cs[i].id == x;
        assert r[i].id == x;
      }
      if x in Ids(r) {
        var i :| 0 <= i < |r| && r[i].id == x;
        assert cs[i].id == x;
      }
    }
  }

  /** The registry's key order after `activeUsers.set(id, …)`: a new key goes last. */
  function Enrol(order: seq<Id>, m: map<Id, Record>, id: Id): (r: seq<Id>)
    ensures order <= r
    ensures |r| == if id in m then |order| else |order| + 1
    ensures id !in m ==> r[|r| - 1] == id
  {
    if id in m then order else order + [id]
  }

  /** `activeUsers.set(rec.id, rec)` for a live id keeps `RegistryOk`. */
  lemma RegistryStore(order: seq<Id>, m: map<Id, Record>, cs: seq<Conn>, rec: Record)
    requires RegistryOk(order, m, cs)
    requires rec.id in Ids(cs)
    ensures RegistryOk(Enrol(order, m, rec.id), m[rec.id := rec], cs)
  {
    if rec.id !in m {
      var o := order + [rec.id];
      forall i, j | 0 <= i < j < |o| ensures o[i] != o[j] {
        if j == |order| {
          assert o[i] in order;
        }
      }
    }
  }

  /** Deleting a closed socket's id from the registry keeps `RegistryOk`. */
  lemma RegistryForget(order: seq<Id>, m: map<Id, Record>, cs: seq<Conn>, id: Id)
    requires RegistryOk(order, m, cs)
    requires DistinctIds(cs)
    ensures RegistryOk(Remove(order, id), m - {id}, Detach(cs, id))
  {
    RemoveSpec(order, id);
    DetachSpec(cs, id);
  }

  /**
   * The socket is deleted from the client set before the close handler runs,
   * so the departing client is never sent its own `user-left`.
   */
  lemma LeaverNotNotified(cs: seq<Conn>, id: Id)
    requires DistinctIds(cs)
    ensures forall d | d in Fanout(Detach(cs, id), None, UserLeft(id)) :: d.to != id
  {
    DetachSpec(cs, id);
    FanoutDeliveries(Detach(cs, id), None, UserLeft(id));
  }

  // ---------------------------------------------------------------------
  // The server
  // ---------------------------------------------------------------------

  class Server {
    /** `activeUsers`: presence records keyed by connection id. */
    var activeUsers: map<Id, Record>
    /** The keys of `activeUsers` in insertion order, the order a JavaScript Map iterates in. */
    var order: seq<Id>
    /** `wss.clients`, in the order the sockets connected. */
    var clients: seq<Conn>
    /** Every control message sent so far, in order. */
    var outbox: seq<Delivery>
    /** Every id ever assigned to a connection. */
    ghost var seen: set<Id>
    /** The ids of connections that have closed. */
    ghost var departed: set<Id>

    ghost predicate Valid()
      reads this
    {
      && ClientsOk(clients, seen, departed)
      && RegistryOk(order, activeUsers, clients)
      && OutboxOk(outbox, seen)
    }

    constructor ()
      ensures Valid()
      ensures activeUsers == map[] && order == [] && clients == [] && outbox == []
      ensures seen == {} && departed == {}
    {
      activeUsers, order, clients, outbox := map[], [], [], [];
      seen, departed := {}, {};
    }

    /** `broadcast`: send `n` to every open client. */
    method Broadcast(n: Notice)
      modifies this`outbox
      ensures outbox == old(outbox) + Fanout(clients, None, n)
    {
      var i := 0;
      while i < |clients|
        invariant 0 <= i <= |clients|
        invariant outbox == old(outbox) + Fanout(clients[..i], None, n)
      {
        var c := clients[i];
        if c.open {
          outbox := outbox + [Delivery(c.id, n)];
        }
        i := i + 1;
        assert clients[..i][..i - 1] == clients[..i - 1];
      }
      assert clients[..i] == clients;
    }

    /** `broadcastToOthers`: send `n` to every open client except `sender`. */
    method BroadcastToOthers(sender: Id, n: Notice)
      modifies this`outbox
      ensures outbox == old(outbox) + Fanout(clients, Some(sender), n)
    {
      var i := 0;
      while i < |clients|
        invariant 0 <= i <= |clients|
        invariant outbox == old(outbox) + Fanout(clients[..i], Some(sender), n)
      {
        var c := clients[i];
        if c.id != sender && c.open {
          outbox := outbox + [Delivery(c.id, n)];
        }
        i := i + 1;
        assert clients[..i][..i - 1] == clients[..i - 1];
      }
      assert clients[..i] == clients;
    }

    /** `ws.send` on the socket `to`, which drops the message unless the socket is open. */
    method Send(to: Id, n: Notice)
      modifies this`outbox
      ensures outbox == old(outbox) + Direct(clients, to, n)
    {
      if Conn(to, true) in clients {
        outbox := outbox + [Delivery(to, n)];
      }
    }

    /** `activeUsers.set(rec.id, rec)`: a new key goes to the end of the iteration order. */
    method Store(rec: Record)
      modifies this`activeUsers, this`order
      ensures activeUsers == old(activeUsers)[rec.id := rec]
      ensures order == Enrol(old(order), old(activeUsers), rec.id)
    {
      if rec.id !in activeUsers {
        order := order + [rec.id];
      }
      activeUsers := activeUsers[rec.id := rec];
    }

    /** `activeUsers.set(rec.id, rec)` for a live connection, keeping the invariant. */
    method Register(rec: Record)
      requires Valid()
      requires rec.id in Ids(clients)
      modifies this`activeUsers, this`order
      ensures Valid()
      ensures activeUsers == old(activeUsers)[rec.id := rec]
      ensures order == Enrol(old(order), old(activeUsers), rec.id)
    {
      RegistryStore(order, activeUsers, clients, rec);
      Store(rec);
    }

    /** `broadcastToOthers` from a message handler, keeping the invariant. */
    method Forward(sender: Id, n: Notice)
      requires Valid()
      requires Author(n) == None || Author(n) == Some(sender)
      modifies this`outbox
      ensures Valid()
      ensures outbox == old(outbox) + Fanout(clients, Some(sender), n)
      ensures AuthoredBy(outbox[|old(outbox)|..], sender)
    {
      FanoutAuthored(clients, Some(sender), n, sender);
      AuthoredAfter(outbox, Fanout(clients, Some(sender), n), sender);
      OutboxFanout(outbox, clients, Some(sender), n, seen);
      BroadcastToOthers(sender, n);
    }

    /**
     * The replies to `user-joined` from `sender`: the registry in iteration
     * order to the sender, then the sender's record to every other open client.
     */
    method Announce(sender: Id)
      requires Valid()
      requires sender in activeUsers
      modifies this`outbox
      ensures Valid()
      ensures outbox == old(outbox)
        + Direct(clients, sender, ExistingUsers(Values(order, activeUsers)))
        + Fanout(clients, Some(sender), UserJoined(Some(activeUsers[sender])))
      ensures AuthoredBy(outbox[|old(outbox)|..], sender)
    {
      var existing := ExistingUsers(Values(order, activeUsers));
      var direct := Direct(clients, sender, existing);
      OutboxGrows(outbox, direct, seen);
      AuthoredAfter(outbox, direct, sender);
      Send(sender, existing);
      ghost var mid := outbox;
      Forward(sender, UserJoined(Some(activeUsers[sender])));
      AuthoredJoin(old(outbox), direct, outbox[|mid|..], sender);
    }

    /**
     * A new connection: the socket joins the client set and is sent `init`
     * with its fresh id and a palette colour drawn with `u`.
     */
    method Connect(id: Id, u: real)
      requires Valid()
      requires id !in seen
      requires 0.0 <= u < 1.0
      modifies this
      ensures Valid()
      ensures clients == old(clients) + [Conn(id, true)]
      ensures outbox == old(outbox) + [Delivery(id, Init(id, Palette.RandomColor(u)))]
      ensures Palette.RandomColor(u) in Palette.Colors
      ensures activeUsers == old(activeUsers) && order == old(order)
      ensures seen == old(seen) + {id} && departed == old(departed)
    {
      ClientsConnect(clients, seen, departed, id);
      OutboxWelcomes(outbox, seen, id, Palette.RandomColor(u));
      clients := clients + [Conn(id, true)];
      seen := seen + {id};
      Send(id, Init(id, Palette.RandomColor(u)));
    }

    /** The socket `id` leaves the OPEN state before its close event is handled. */
    method BeginClose(id: Id)
      requires Valid()
      requires id in Ids(clients)
      modifies this`clients
      ensures Valid()
      ensures clients == MarkClosing(old(clients), id)
    {
      ClosingKeepsIds(clients, id);
      clients := MarkClosing(clients, id);
    }

    /**
     * The close event of socket `id`: the socket has already been deleted
     * from the client set, its record is deleted (nothing happens to the
     * registry if it never sent `cursor` or `user-joined`), and `user-left`
     * goes to every client still open.
     */
    method Close(id: Id)
      requires Valid()
      requires id in Ids(clients)
      modifies this
      ensures Valid()
      ensures clients == Detach(old(clients), id)
      ensures id !in Ids(clients)
      ensures activeUsers == old(activeUsers) - {id}
      ensures order == Remove(old(order), id)
      ensures outbox == old(outbox) + Fanout(clients, None, UserLeft(id))
      ensures seen == old(seen) && departed == old(departed) + {id}
    {
      DetachSpec(clients, id);
      RegistryForget(order, activeUsers, clients, id);
      clients := Detach(clients, id);
      activeUsers := activeUsers - {id};
      order := Remove(order, id);
      departed := departed + {id};
      OutboxFanout(outbox, clients, None, UserLeft(id), seen);
      Broadcast(UserLeft(id));
    }

    /**
     * A `cursor` message from `sender`: the record is replaced by
     * {id, cursor, color} and the cursor goes to every other open client.
     */
    method OnCursor(sender: Id, cursor: Option<Point>, color: Option<string>, name: Option<string>, u: real)
      requires Valid()
      requires sender in Ids(clients)
      requires 0.0 <= u < 1.0
      modifies this`activeUsers, this`order, this`outbox
      ensures Valid()
      ensures clients == old(clients) && seen == old(seen) && departed == old(departed)
      ensures activeUsers == old(activeUsers)[sender :=
        Record(sender, None, Or(color, Palette.RandomColor(u)), cursor)]
      ensures order == Enrol(old(order), old(activeUsers), sender)
      ensures outbox == old(outbox) + Fanout(clients, Some(sender),
        CursorNote(sender, cursor, activeUsers[sender].color, Or(name, DefaultName(sender))))
      ensures AuthoredBy(outbox[|old(outbox)|..], sender)
    {
      var rec := Record(sender, None, Or(color, Palette.RandomColor(u)), cursor);
      Register(rec);
      Forward(sender, CursorNote(sender, cursor, activeUsers[sender].color, Or(name, DefaultName(sender))));
    }

    /**
     * A `user-joined` message from `sender`: the record is replaced by
     * {id, name, color}; the sender is sent every registry record (its own
     * included), and then the other open clients are sent its record.
     */
    method OnUserJoined(sender: Id, name: Option<string>, color: Option<string>, u: real)
      requires Valid()
      requires sender in Ids(clients)
      requires 0.0 <= u < 1.0
      modifies this`activeUsers, this`order, this`outbox
      ensures Valid()
      ensures clients == old(clients) && seen == old(seen) && departed == old(departed)
      ensures activeUsers == old(activeUsers)[sender :=
        Record(sender, Some(Or(name, DefaultName(sender))), Or(color, Palette.RandomColor(u)), None)]
      ensures order == Enrol(old(order), old(activeUsers), sender)
      ensures outbox == old(outbox)
        + Direct(clients, sender, ExistingUsers(Values(order, activeUsers)))
        + Fanout(clients, Some(sender), UserJoined(Some(activeUsers[sender])))
      ensures AuthoredBy(outbox[|old(outbox)|..], sender)
    {
      var rec := Record(sender, Some(Or(name, DefaultName(sender))), Or(color, Palette.RandomColor(u)), None);
      Register(rec);
      Announce(sender);
    }

    /**
     * The `message` handler: dispatch on the parsed `type`. A frame that does
     * not parse, or whose type is neither `cursor` nor `user-joined`, changes
     * nothing and sends nothing. Whatever it sends is attributed to the
     * sender or to no one.
     */
    method OnMessage(sender: Id, m: Inbound, u: real)
      requires Valid()
      requires sender in Ids(clients)
      requires 0.0 <= u < 1.0
      modifies this`activeUsers, this`order, this`outbox
      ensures Valid()
      ensures clients == old(clients) && seen == old(seen) && departed == old(departed)
      ensures m.CursorIn? ==>
        && activeUsers == old(activeUsers)[sender :=
             Record(sender, None, Or(m.color, Palette.RandomColor(u)), m.cursor)]
        && outbox == old(outbox) + Fanout(clients, Some(sender),
             CursorNote(sender, m.cursor, activeUsers[sender].color, Or(m.name, DefaultName(sender))))
      ensures m.UserJoinedIn? ==>
        && activeUsers == old(activeUsers)[sender :=
             Record(sender, Some(Or(m.name, DefaultName(sender))), Or(m.color, Palette.RandomColor(u)), None)]
        && outbox == old(outbox)
             + Direct(clients, sender, ExistingUsers(Values(order, activeUsers)))
             + Fanout(clients, Some(sender), UserJoined(Some(activeUsers[sender])))
      ensures m.CursorIn? || m.UserJoinedIn? ==>
        order == Enrol(old(order), old(activeUsers), sender)
      ensures m.OtherIn? || m.Unparsable? ==>
        activeUsers == old(activeUsers) && order == old(order) && outbox == old(outbox)
      ensures AuthoredBy(outbox[|old(outbox)|..], sender)
    {
      if m.CursorIn? {
        OnCursor(sender, m.cursor, m.color, m.name, u);
      } else if m.UserJoinedIn? {
        OnUserJoined(sender, m.name, m.color, u);
      } else {
        assert outbox[|old(outbox)|..] == [];
      }
    }
  }
}

