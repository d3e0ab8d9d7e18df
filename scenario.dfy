/**
 * The join sequence of two connections, as a client of the server's contracts:
 * what each is sent follows from the specifications alone. The first connection
 * to join is sent a list holding its own record.
 */
module Scenario {
  import opened Protocol
  import Palette
  import opened Relay

  /** A socket connects to a fresh server and is greeted with its id and the first palette colour. */
  method FirstUserConnects(id: Id) returns (s: Server)
    ensures fresh(s) && s.Valid() && s.seen == {id}
    ensures s.clients == [Conn(id, true)]
    ensures s.order == [] && s.activeUsers == map[]
    ensures s.outbox == [Delivery(id, Init(id, "#FF6B6B"))]
  {
    s := new Server();
    s.Connect(id, 0.0);
    Palette.RandomColorPicks(0.0, 0);
  }

  /**
   * The first connection arrives with id `id` and announces itself with the
   * name `name`. It is the only client, so only it hears back, and the list
   * it is sent holds its own record.
   */
  method FirstUserJoins(id: Id, name: string, c1: real) returns (s: Server)
    requires name != ""
    requires 0.0 <= c1 < 1.0
    ensures fresh(s) && s.Valid() && s.seen == {id}
    ensures s.clients == [Conn(id, true)]
    ensures s.order == [id]
    ensures s.activeUsers == map[id := Record(id, Some(name), Palette.RandomColor(c1), None)]
    ensures s.outbox == [Delivery(id, Init(id, "#FF6B6B")),
                         Delivery(id, ExistingUsers([Record(id, Some(name), Palette.RandomColor(c1), None)]))]
  {
    s := FirstUserConnects(id);
    ghost var greeting := s.outbox;
    s.OnMessage(id, UserJoinedIn(Some(name), None), c1);
    var rec := Record(id, Some(name), Palette.RandomColor(c1), None);
    AloneHearsItself(id, rec, s.clients, s.order, s.activeUsers);
    assert s.outbox == greeting + [Delivery(id, ExistingUsers([rec]))];
  }

  /** A client that is alone when it announces itself hears back only its own record. */
  lemma AloneHearsItself(id: Id, rec: Record, cs: seq<Conn>, order: seq<Id>, m: map<Id, Record>)
    requires cs == [Conn(id, true)] && order == [id] && m == map[id := rec]
    ensures Direct(cs, id, ExistingUsers(Values(order, m)))
      + Fanout(cs, Some(id), UserJoined(Some(m[id])))
      == [Delivery(id, ExistingUsers([rec]))]
  {
    assert cs[..0] == [];
    assert Fanout(cs, Some(id), UserJoined(Some(rec))) == [];
    assert Values(order, m) == [rec];
  }

  /**
   * What the second connection's announcement sends, once both are
   * registered: the list of both records in join order to the second, and
   * the second's record to the first.
   */
  lemma SecondJoinSends(first: Record, second: Record)
    requires first.id != second.id
    ensures var cs := [Conn(first.id, true), Conn(second.id, true)];
            var m := map[first.id := first, second.id := second];
            Direct(cs, second.id, ExistingUsers(Values([first.id, second.id], m)))
              + Fanout(cs, Some(second.id), UserJoined(Some(second)))
            == [Delivery(second.id, ExistingUsers([first, second])),
                Delivery(first.id, UserJoined(Some(second)))]
  {
    var cs := [Conn(first.id, true), Conn(second.id, true)];
    var joined := UserJoined(Some(second));
    assert cs[..1] == [Conn(first.id, true)] && cs[..1][..0] == [];
    assert Fanout(cs[..1], Some(second.id), joined) == [Delivery(first.id, joined)];
    assert Fanout(cs, Some(second.id), joined) == [Delivery(first.id, joined)];
    assert Values([first.id, second.id], map[first.id := first, second.id := second]) == [first, second];
  }

  /**
   * A page holds two connections: the document provider's and the presence
   * socket. Only the presence socket announces itself, and
   * `broadcastToOthers` skips only that socket, so the page's own provider
   * connection is sent its announcement.
   */
  lemma PageHearsItsOwnJoin(provider: Id, presence: Id, rec: Record)
    requires provider != presence
    ensures Fanout([Conn(provider, true), Conn(presence, true)], Some(presence), UserJoined(Some(rec)))
         == [Delivery(provider, UserJoined(Some(rec)))]
  {
    var cs := [Conn(provider, true), Conn(presence, true)];
    assert cs[..1] == [Conn(provider, true)] && cs[..1][..0] == [];
  }
}
