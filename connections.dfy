/**
 * The per-game registry of websocket connections: for every game id, the
 * connections open on it and the side number each was given when it joined.
 * A connection is an abstract id; the socket I/O around the registry is not
 * part of this model.
 */
module Connections {
  import opened Wrappers
  import opened Board
  import opened Game

  /** A websocket connection, by identity. */
  type Conn = nat

  /** `websocket_connections`: game id to (connection to side number). */
  type Table = map<string, map<Conn, int>>

  /**
   * The shape the registry keeps: no game has an empty entry, every number
   * is 1 or 2, and at most one connection of a game holds number 1.
   */
  predicate WellFormed(t: Table) {
    forall id :: id in t ==>
      && t[id] != map[]
      && (forall c :: c in t[id] ==> t[id][c] == 1 || t[id][c] == 2)
      && (forall c, d :: c in t[id] && d in t[id] && t[id][c] == 1 && t[id][d] == 1 ==> c == d)
  }

  /** The entry of a game, empty when the game has none. */
  function Entry(t: Table, id: string): map<Conn, int> {
    if id in t then t[id] else map[]
  }

  /**
   * Joining `id` with `conn`: the entry is created when missing, and the
   * connection is given 1 when the entry was empty and 2 otherwise.
   */
  function Joined(t: Table, id: string, conn: Conn): (r: Table)
    ensures id in r && conn in r[id]
    ensures forall g :: g in t ==> g in r
  {
    var entry := Entry(t, id);
    t[id := entry[conn := if |entry| == 0 then 1 else 2]]
  }

  /**
   * Leaving after an error: the connection is removed from the entry of
   * `id`, and the entry itself is removed once no connection is left.
   */
  function Left(t: Table, id: string, conn: Conn): (r: Table)
    requires id in t
    ensures forall g :: g in r ==> g in t
    ensures id in r ==> conn !in r[id]
  {
    var entry := t[id] - {conn};
    if entry == map[] then t - {id} else t[id := entry]
  }

  /**
   * The first connection to a game gets number 1, every later one 2; the
   * game's earlier connections keep their numbers, the other games are
   * untouched and the registry keeps its shape.
   */
  lemma JoinedSpec(t: Table, id: string, conn: Conn)
    requires WellFormed(t)
    ensures WellFormed(Joined(t, id, conn))
    ensures id in Joined(t, id, conn) && conn in Joined(t, id, conn)[id]
    ensures Joined(t, id, conn)[id][conn] == 1 <==> id !in t
    ensures Joined(t, id, conn)[id][conn] == 2 <==> id in t
    ensures Joined(t, id, conn)[id].Keys == Entry(t, id).Keys + {conn}
    ensures forall c :: c in Entry(t, id) && c != conn ==> Joined(t, id, conn)[id][c] == Entry(t, id)[c]
    ensures forall g :: g != id ==> (g in Joined(t, id, conn) <==> g in t)
    ensures forall g :: g != id && g in t ==> Joined(t, id, conn)[g] == t[g]
  {
    JoinedEntry(t, id, conn);
    JoinedNumber(t, id, conn);
    JoinedWellFormed(t, id, conn);
    JoinedOthers(t, id, conn);
  }

  /** Joining one game leaves every other game as it was. */
  lemma JoinedOthers(t: Table, id: string, conn: Conn)
    ensures forall g :: g != id ==> (g in Joined(t, id, conn) <==> g in t)
    ensures forall g :: g != id && g in t ==> Joined(t, id, conn)[g] == t[g]
  {
  }

  /** The number given on joining: 2 when the game already has an entry, 1 otherwise. */
  lemma JoinedNumber(t: Table, id: string, conn: Conn)
    requires WellFormed(t)
    ensures Joined(t, id, conn)[id][conn] == if id in t then 2 else 1
  {
    if id in t {
      var c :| c in t[id];
      assert |t[id]| != 0;
    }
  }

  /** Joining keeps the registry's shape. */
  lemma JoinedWellFormed(t: Table, id: string, conn: Conn)
    requires WellFormed(t)
    ensures WellFormed(Joined(t, id, conn))
  {
    var r := Joined(t, id, conn);
    JoinedNumber(t, id, conn);
    forall g | g in r
      ensures r[g] != map[]
      ensures forall c :: c in r[g] ==> r[g][c] == 1 || r[g][c] == 2
      ensures forall c, d :: c in r[g] && d in r[g] && r[g][c] == 1 && r[g][d] == 1 ==> c == d
    {
      if g == id {
        assert conn in r[g];
      }
    }
  }

  /** Joining adds `conn` to the game's entry and keeps every other connection's number. */
  lemma JoinedEntry(t: Table, id: string, conn: Conn)
    ensures Joined(t, id, conn)[id].Keys == Entry(t, id).Keys + {conn}
    ensures forall c :: c in Entry(t, id) && c != conn ==> Joined(t, id, conn)[id][c] == Entry(t, id)[c]
  {
  }

  /**
   * After leaving, the connection is gone from its game, the game's entry
   * is gone exactly when that connection was its last one, the other games
   * are untouched and the registry keeps its shape.
   */
  lemma LeftSpec(t: Table, id: string, conn: Conn)
    requires WellFormed(t) && id in t
    ensures WellFormed(Left(t, id, conn))
    ensures id in Left(t, id, conn) ==> conn !in Left(t, id, conn)[id]
    ensures id !in Left(t, id, conn) <==> t[id].Keys <= {conn}
    ensures id in Left(t, id, conn) ==> forall c :: c in t[id] && c != conn ==> c in Left(t, id, conn)[id] && Left(t, id, conn)[id][c] == t[id][c]
    ensures forall g :: g != id ==> (g in Left(t, id, conn) <==> g in t)
    ensures forall g :: g != id && g in t ==> Left(t, id, conn)[g] == t[g]
  {
    var entry := t[id] - {conn};
    if entry == map[] {
      assert t[id].Keys - {conn} == entry.Keys == {};
    } else {
      var c :| c in entry;
      assert c in t[id] && c != conn;
    }
  }

  /**
   * A new connection that joins and then fails inside the receive loop,
   * where the source removes it, leaves the registry as it found it.
   */
  lemma LeftUndoesJoined(t: Table, id: string, conn: Conn)
    requires WellFormed(t)
    requires id in t ==> conn !in t[id]
    ensures id in Joined(t, id, conn)
    ensures Left(Joined(t, id, conn), id, conn) == t
  {
    var n := if |Entry(t, id)| == 0 then 1 else 2;
    RemoveAdded(Entry(t, id), conn, n);
    if id in t {
      assert t[id] != map[];
      assert t[id := t[id]] == t;
    } else {
      RemoveAdded(t, id, map[conn := n]);
    }
  }

  /** Adding a new key and removing it again gives back the map. */
  lemma RemoveAdded<K, V>(m: map<K, V>, k: K, v: V)
    requires k !in m
    ensures m[k := v] - {k} == m
  {
  }

  class Registry {
    var table: Table

    ghost predicate Valid()
      reads this
    {
      WellFormed(table)
    }

    /** The empty registry the server starts with. */
    constructor()
      ensures Valid() && table == map[]
    {
      table := map[];
    }

    /**
     * A connection to `gameId` is accepted: it is registered under the
     * number it is given, 1 for the first connection of the game and 2 for
     * every later one.
     */
    method Join(gameId: string, conn: Conn) returns (number: int)
      requires Valid()
      modifies this
      ensures Valid()
      ensures table == Joined(old(table), gameId, conn)
      ensures number == table[gameId][conn]
      ensures number == 1 <==> gameId !in old(table)
    {
      JoinedSpec(table, gameId, conn);
      var entry: map<Conn, int> := if gameId in table then table[gameId] else map[];
      number := if |entry| == 0 then 1 else 2;
      table := table[gameId := entry[conn := number]];
    }

    /**
     * A message arrives on `conn`: a chat message is attributed to the
     * number of its connection and, when the game exists, appended to the
     * game's chat; any other message is ignored. The registry is unchanged.
     */
    method ReceiveChat(games: map<string, GameState>, gameId: string, conn: Conn, kind: string, message: string)
      returns (record: Option<Chat>)
      requires gameId in table && conn in table[gameId]
      requires gameId in games ==> games[gameId].Valid()
      modifies if gameId in games then {games[gameId]} else {}
      ensures record.Some? <==> kind == "chat"
      ensures record.Some? ==> record.value == Chat(table[gameId][conn], message)
      ensures gameId in games ==>
        var g := games[gameId];
        && g.Valid()
        && g.Value() == old(g.Value()).(chat := old(g.chatHistory) + if record.Some? then [record.value] else [])
    {
      if kind != "chat" {
        return None;
      }
      var c := Chat(table[gameId][conn], message);
      if gameId in games {
        var game := games[gameId];
        ghost var v := game.Value();
        game.chatHistory := game.chatHistory + [c];
        assert game.GetBoardState() == v.board;
        assert game.Value() == v.(chat := v.chat + [c]);
      }
      return Some(c);
    }

    /**
     * The connection to `gameId` fails or closes: it is removed, and so is
     * the game's entry once no connection is left in it.
     */
    method Leave(gameId: string, conn: Conn)
      requires Valid() && gameId in table
      modifies this
      ensures Valid()
      ensures table == Left(old(table), gameId, conn)
    {
      LeftSpec(table, gameId, conn);
      var entry: map<Conn, int> := table[gameId];
      if conn in entry {
        entry := entry - {conn};
      } else {
        assert entry - {conn} == entry;
      }
      if entry == map[] {
        table := table - {gameId};
      } else {
        table := table[gameId := entry];
      }
    }
  }
}
