/** The connection registry (backend/internal/ws/manager.go): connections
    by id and by username. Sockets are opaque handles, and every message
    written to a socket is appended to an outbox. */
module Connections {
  import opened Messages

  /** A websocket, known only by an opaque handle. */
  datatype Socket = Socket(handle: nat)

  class Connection {
    const ID: string
    const Username: string
    const Sock: Socket

    constructor (id: string, username: string, sock: Socket)
      ensures ID == id && Username == username && Sock == sock
    {
      ID := id;
      Username := username;
      Sock := sock;
    }
  }

  /** The delivery SendToUsername makes through a username table: one
      message to the connection registered under u, or none. */
  function Routed(byUsername: map<string, Connection>, u: string, msg: ServerMessage): (ds: seq<Delivery>)
    ensures |ds| <= 1
    ensures |ds| == 1 <==> u in byUsername
    ensures |ds| == 1 ==> ds[0].msg == msg && ds[0].connID == byUsername[u].ID && ds[0].username == byUsername[u].Username
  {
    if u in byUsername then [Delivery(byUsername[u].ID, byUsername[u].Username, msg)] else []
  }

  /** Every username entry points at a connection carrying that username. */
  predicate NamesMatch(byUsername: map<string, Connection>)
  {
    forall u :: u in byUsername ==> byUsername[u].Username == u
  }

  class Manager {
    var connections: map<string, Connection>
    var byUsername: map<string, Connection>
    /** Everything written to a socket, in order. */
    var outbox: seq<Delivery>

    /** Both tables are keyed by the connection's own ID and Username. */
    ghost predicate Valid()
      reads this
    {
      && (forall id :: id in connections ==> connections[id].ID == id)
      && NamesMatch(byUsername)
    }

    /** NewManager (manager.go:32-37). */
    constructor ()
      ensures Valid()
      ensures connections == map[] && byUsername == map[] && outbox == []
    {
      connections := map[];
      byUsername := map[];
      outbox := [];
    }

    /** Register (manager.go:40-54), with the fresh id passed in: the new
        connection is entered in both tables; an older connection of the
        same user keeps its id entry but loses the username entry. */
    method Register(username: string, sock: Socket, id: string) returns (c: Connection)
      requires Valid()
      modifies this
      ensures Valid() && fresh(c)
      ensures c.ID == id && c.Username == username && c.Sock == sock
      ensures connections == old(connections)[id := c]
      ensures byUsername == old(byUsername)[username := c]
      ensures outbox == old(outbox)
    {
      c := new Connection(id, username, sock);
      connections := connections[id := c];
      byUsername := byUsername[username := c];
    }

    /** Unregister (manager.go:57-68): nil is ignored; otherwise both
        entries named by the connection are deleted, whoever they point at,
        so a stale connection also removes the user's newer entry. */
    method Unregister(c: Connection?)
      requires Valid()
      modifies this
      ensures Valid() && outbox == old(outbox)
      ensures c == null ==> connections == old(connections) && byUsername == old(byUsername)
      ensures c != null ==>
                connections == old(connections) - {c.ID} && byUsername == old(byUsername) - {c.Username}
    {
      if c == null {
        return;
      }
      connections := connections - {c.ID};
      byUsername := byUsername - {c.Username};
    }

    /** Unregister as evidently intended: the username entry is deleted
        only while it still points at this connection, so a newer
        connection of the same user stays reachable. */
    method UnregisterOwn(c: Connection?)
      requires Valid()
      modifies this
      ensures Valid() && outbox == old(outbox)
      ensures c == null ==> connections == old(connections) && byUsername == old(byUsername)
      ensures c != null ==> connections == old(connections) - {c.ID}
      ensures c != null && c.Username in old(byUsername) && old(byUsername)[c.Username] == c ==>
                byUsername == old(byUsername) - {c.Username}
      ensures forall u :: u in old(byUsername) && old(byUsername)[u] != c ==>
                u in byUsername && byUsername[u] == old(byUsername)[u]
    {
      if c == null {
        return;
      }
      connections := connections - {c.ID};
      if c.Username in byUsername && byUsername[c.Username] == c {
        byUsername := byUsername - {c.Username};
      }
    }

    /** Send (manager.go:71-91): nil is ignored; otherwise the message is
        written to that connection. */
    method Send(c: Connection?, msg: ServerMessage)
      modifies this
      ensures connections == old(connections) && byUsername == old(byUsername)
      ensures c == null ==> outbox == old(outbox)
      ensures c != null ==> outbox == old(outbox) + [Delivery(c.ID, c.Username, msg)]
    {
      if c == null {
        return;
      }
      outbox := outbox + [Delivery(c.ID, c.Username, msg)];
    }

    /** FindByUsername (manager.go:99-104): nil when the user has no entry. */
    method FindByUsername(username: string) returns (c: Connection?)
      ensures username in byUsername ==> c == byUsername[username]
      ensures username !in byUsername ==> c == null
    {
      if username in byUsername {
        return byUsername[username];
      }
      return null;
    }

    /** SendToUsername (manager.go:94-96): one delivery to the user's
        current connection, none when the user has no entry. */
    method SendToUsername(username: string, msg: ServerMessage)
      modifies this
      ensures connections == old(connections) && byUsername == old(byUsername)
      ensures outbox == old(outbox) + Routed(old(byUsername), username, msg)
    {
      var c := FindByUsername(username);
      Send(c, msg);
    }

    /** Shutdown (manager.go:119-133): both tables are emptied. */
    method Shutdown()
      modifies this
      ensures Valid()
      ensures connections == map[] && byUsername == map[] && outbox == old(outbox)
    {
      connections := map[];
      byUsername := map[];
    }
  }

  /** Unregister is idempotent: a second call with the same connection
      leaves both tables as the first call left them. */
  method UnregisterTwice(m: Manager, c: Connection?) returns (connsOnce: map<string, Connection>, namesOnce: map<string, Connection>)
    requires m.Valid()
    modifies m
    ensures m.Valid()
    ensures m.connections == connsOnce && m.byUsername == namesOnce
  {
    m.Unregister(c);
    connsOnce, namesOnce := m.connections, m.byUsername;
    m.Unregister(c);
  }

  /** A user reconnects, then the first socket closes: with Unregister as
      written, the user's newer, still registered connection loses its
      username entry, so SendToUsername no longer reaches the user. */
  method StaleDisconnect() returns (m: Manager, newer: Connection)
    ensures newer.ID in m.connections && m.connections[newer.ID] == newer
    ensures newer.Username !in m.byUsername
  {
    m := new Manager();
    var older := m.Register("alice", Socket(1), "c1");
    newer := m.Register("alice", Socket(2), "c2");
    m.Unregister(older);
  }

  /** The same sequence with UnregisterOwn: the newer connection remains
      the user's entry. */
  method StaleDisconnectOwn() returns (m: Manager, newer: Connection)
    ensures newer.ID in m.connections && m.connections[newer.ID] == newer
    ensures newer.Username in m.byUsername && m.byUsername[newer.Username] == newer
  {
    m := new Manager();
    var older := m.Register("alice", Socket(1), "c1");
    newer := m.Register("alice", Socket(2), "c2");
    m.UnregisterOwn(older);
  }
}
