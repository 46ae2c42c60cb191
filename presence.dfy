/**
 * The process-wide presence table of the websocket layer and the
 * notification fan-out built on it (socket/socket.js).
 *
 * The table maps a user id to ONE socket id: a later `join` for the same
 * user overwrites the earlier socket. `disconnect` walks the table's keys in
 * property order (insertion order for the document ids used as keys) and
 * deletes the first entry holding the closing socket. Emissions are recorded
 * in an outbox instead of being sent.
 */
module Presence {
  import opened Common

  type SocketId = string

  /** The event names emitted to clients. */
  const NewPostEvent: string := "new-post"
  const UserEvent: string := "user-event"

  /** One `io.to(socket).emit(event, payload)`. */
  datatype Emission<P> = Emission(socket: SocketId, event: string, payload: P)

  /** JavaScript truthiness of a socket id read from the table. */
  predicate Truthy(s: SocketId)
  {
    s != ""
  }

  predicate NoDuplicates(keys: seq<UserId>)
  {
    forall i, j :: 0 <= i < j < |keys| ==> keys[i] != keys[j]
  }

  /**
   * The `connectedUsers` object as a value: its keys in enumeration order
   * and its key/value pairs.
   */
  datatype Table = Table(keys: seq<UserId>, sockets: map<UserId, SocketId>)
  {
    ghost predicate Valid()
    {
      && NoDuplicates(keys)
      && (forall u :: u in keys <==> u in sockets)
    }
  }

  /** The empty table the module starts with. */
  const EmptyTable: Table := Table([], map[])

  /**
   * `connectedUsers[u] = s`: the entry for `u` is (over)written and no other
   * entry changes; a new key goes last in enumeration order while an
   * existing key keeps its place.
   */
  function Joined(t: Table, u: UserId, s: SocketId): (r: Table)
    requires t.Valid()
    ensures r.Valid()
    ensures u in r.sockets && r.sockets[u] == s
    ensures forall v :: v != u ==> (v in r.sockets <==> v in t.sockets)
    ensures forall v :: v != u && v in t.sockets ==> r.sockets[v] == t.sockets[v]
    ensures r.keys == if u in t.sockets then t.keys else t.keys + [u]
  {
    Table(if u in t.sockets then t.keys else t.keys + [u], t.sockets[u := s])
  }

  /**
   * The position, in enumeration order, of the first key whose socket is
   * `s`, if there is one.
   */
  function FirstHolder(keys: seq<UserId>, sockets: map<UserId, SocketId>, s: SocketId): (r: Option<nat>)
    requires forall u :: u in keys ==> u in sockets
    ensures r.Some? ==> r.value < |keys| && sockets[keys[r.value]] == s
    ensures r.Some? ==> forall j :: 0 <= j < r.value ==> sockets[keys[j]] != s
    ensures r.None? ==> forall j :: 0 <= j < |keys| ==> sockets[keys[j]] != s
  {
    if keys == [] then None
    else if sockets[keys[0]] == s then Some(0)
    else
      match FirstHolder(keys[1..], sockets, s)
      case None => None
      case Some(i) => Some(i + 1)
  }

  /** A key sequence without duplicates loses exactly the key at `i`. */
  lemma RemoveKeyAt(keys: seq<UserId>, i: nat)
    requires NoDuplicates(keys) && i < |keys|
    ensures NoDuplicates(keys[..i] + keys[i + 1..])
    ensures forall u :: u in keys[..i] + keys[i + 1..] <==> u in keys && u != keys[i]
  {
    var r := keys[..i] + keys[i + 1..];
    assert forall k :: 0 <= k < |r| ==> r[k] == keys[if k < i then k else k + 1];
    forall u | u in keys && u != keys[i] ensures u in r {
      var k :| 0 <= k < |keys| && keys[k] == u;
      assert r[if k < i then k else k - 1] == u;
    }
  }

  /**
   * The `disconnect` handler's effect: at most one entry is deleted, namely
   * the first one in enumeration order whose socket is `s`; every other
   * entry and the order of the remaining keys stay as they were.
   */
  function Disconnected(t: Table, s: SocketId): (r: Table)
    requires t.Valid()
    ensures r.Valid()
    ensures r.sockets.Keys <= t.sockets.Keys
    ensures forall u :: u in r.sockets ==> r.sockets[u] == t.sockets[u]
    ensures forall u :: u in t.sockets && u !in r.sockets ==> t.sockets[u] == s
  {
    match FirstHolder(t.keys, t.sockets, s)
    case None => t
    case Some(i) =>
      RemoveKeyAt(t.keys, i);
      Table(t.keys[..i] + t.keys[i + 1..], t.sockets - {t.keys[i]})
  }

  /** A socket that no entry holds: the disconnect leaves the table unchanged. */
  lemma DisconnectUnknownSocket(t: Table, s: SocketId)
    requires t.Valid() && s !in t.sockets.Values
    ensures Disconnected(t, s) == t
  {
  }

  /** A socket that some entry holds: exactly one entry goes. */
  lemma DisconnectRemovesOne(t: Table, s: SocketId)
    requires t.Valid() && s in t.sockets.Values
    ensures |Disconnected(t, s).sockets.Keys| == |t.sockets.Keys| - 1
  {
    var u :| u in t.sockets && t.sockets[u] == s;
    var k :| 0 <= k < |t.keys| && t.keys[k] == u;
    var i := FirstHolder(t.keys, t.sockets, s).value;
    assert Disconnected(t, s).sockets.Keys == t.sockets.Keys - {t.keys[i]};
  }

  /**
   * What one lookup `connectedUsers[u]` followed by a guarded emit sends:
   * one emission to `u`'s socket when the table holds a truthy socket for
   * `u`, nothing otherwise.
   */
  function Delivery<P>(sockets: map<UserId, SocketId>, u: UserId, event: string, payload: P): (r: seq<Emission<P>>)
    ensures |r| <= 1
    ensures |r| == 1 <==> u in sockets && Truthy(sockets[u])
    ensures |r| == 1 ==> r[0].socket == sockets[u] && r[0].event == event && r[0].payload == payload
  {
    if u in sockets && Truthy(sockets[u]) then [Emission(sockets[u], event, payload)] else []
  }

  /**
   * The emissions of a fan-out to `recipients`, in list order: recipients
   * without a truthy table entry are skipped, and a recipient listed twice
   * is sent to twice.
   */
  function Deliveries<P>(sockets: map<UserId, SocketId>, recipients: seq<UserId>, event: string, payload: P): (r: seq<Emission<P>>)
    ensures |r| <= |recipients|
    ensures forall k :: 0 <= k < |r| ==>
      && r[k].socket in sockets.Values && Truthy(r[k].socket)
      && r[k].event == event && r[k].payload == payload
  {
    if recipients == [] then []
    else Delivery(sockets, recipients[0], event, payload) + Deliveries(sockets, recipients[1..], event, payload)
  }

  /** A fan-out to two lists is the fan-out to the first followed by the fan-out to the second. */
  lemma {:induction false} DeliveriesAppend<P>(sockets: map<UserId, SocketId>, xs: seq<UserId>, ys: seq<UserId>, event: string, payload: P)
    ensures Deliveries(sockets, xs + ys, event, payload)
         == Deliveries(sockets, xs, event, payload) + Deliveries(sockets, ys, event, payload)
  {
    if xs == [] {
      assert xs + ys == ys;
    } else {
      assert (xs + ys)[1..] == xs[1..] + ys;
      DeliveriesAppend(sockets, xs[1..], ys, event, payload);
    }
  }

  /** A fan-out to one recipient is that recipient's delivery. */
  lemma DeliveriesSingle<P>(sockets: map<UserId, SocketId>, u: UserId, event: string, payload: P)
    ensures Deliveries(sockets, [u], event, payload) == Delivery(sockets, u, event, payload)
  {
    assert [u][1..] == [];
  }

  /** Extending the list by its next recipient extends the fan-out by that recipient's delivery. */
  lemma DeliveriesSnoc<P>(sockets: map<UserId, SocketId>, recipients: seq<UserId>, i: nat, event: string, payload: P)
    requires i < |recipients|
    ensures Deliveries(sockets, recipients[..i + 1], event, payload)
         == Deliveries(sockets, recipients[..i], event, payload) + Delivery(sockets, recipients[i], event, payload)
  {
    assert recipients[..i + 1] == recipients[..i] + [recipients[i]];
    DeliveriesAppend(sockets, recipients[..i], [recipients[i]], event, payload);
    DeliveriesSingle(sockets, recipients[i], event, payload);
  }

  /** Nobody in the list is connected: the fan-out sends nothing. */
  lemma {:induction false} DeliveriesToNoOne<P>(sockets: map<UserId, SocketId>, recipients: seq<UserId>, event: string, payload: P)
    requires forall u :: u in recipients ==> u !in sockets || !Truthy(sockets[u])
    ensures Deliveries(sockets, recipients, event, payload) == []
  {
    if recipients != [] {
      DeliveriesToNoOne(sockets, recipients[1..], event, payload);
    }
  }

  /**
   * The module's mutable state: `io` (present once `initSocket` ran), the
   * `connectedUsers` object and the record of everything emitted.
   */
  class Registry<P> {
    var initialized: bool
    var keys: seq<UserId>
    var connectedUsers: map<UserId, SocketId>
    var outbox: seq<Emission<P>>

    /** The table as a value. */
    function Snapshot(): Table
      reads this
    {
      Table(keys, connectedUsers)
    }

    ghost predicate Valid()
      reads this
    {
      Snapshot().Valid()
    }

    /** Module load: no server yet, an empty table, nothing sent. */
    constructor ()
      ensures Valid() && !initialized && Snapshot() == EmptyTable && outbox == []
    {
      initialized := false;
      keys := [];
      connectedUsers := map[];
      outbox := [];
    }

    /** `initSocket`: creates the server; the table and the outbox are untouched. */
    method InitSocket()
      modifies this`initialized
      ensures initialized
    {
      initialized := true;
    }

    /**
     * The `join` handler for socket `socketId`. It is registered by
     * `initSocket`, so it runs only once the server exists.
     */
    method Join(userId: UserId, socketId: SocketId)
      requires Valid() && initialized
      modifies this`keys, this`connectedUsers
      ensures Valid()
      ensures Snapshot() == Joined(old(Snapshot()), userId, socketId)
    {
      if userId !in connectedUsers {
        keys := keys + [userId];
      }
      connectedUsers := connectedUsers[userId := socketId];
    }

    /**
     * The `disconnect` handler for socket `socketId`: walks the keys in
     * order, deletes the first entry holding the socket and stops. Returns
     * the user whose entry was deleted.
     */
    method Disconnect(socketId: SocketId) returns (removed: Option<UserId>)
      requires Valid() && initialized
      modifies this`keys, this`connectedUsers
      ensures Valid()
      ensures Snapshot() == Disconnected(old(Snapshot()), socketId)
      ensures removed.None? <==> socketId !in old(connectedUsers).Values
      ensures removed.Some? ==> removed.value in old(connectedUsers) && removed.value !in connectedUsers
    {
      ghost var before := Snapshot();
      removed := None;
      var i := 0;
      while i < |keys|
        invariant i <= |keys|
        invariant removed.None? ==> Snapshot() == before
        invariant forall j :: 0 <= j < i ==> connectedUsers[keys[j]] != socketId
      {
        var userId := keys[i];
        if connectedUsers[userId] == socketId {
          assert FirstHolder(before.keys, before.sockets, socketId) == Some(i);
          connectedUsers := connectedUsers - {userId};
          keys := keys[..i] + keys[i + 1..];
          removed := Some(userId);
          break;
        }
        i := i + 1;
      }
      if removed.None? {
        assert FirstHolder(before.keys, before.sockets, socketId) == None;
      }
    }

    /**
     * `notifyFollowers`: one "new-post" emission per follower that has a
     * truthy entry, in list order, and none at all before `initSocket`.
     * The table is only read.
     */
    method NotifyFollowers(followers: seq<UserId>, payload: P)
      modifies this`outbox
      ensures outbox == old(outbox) + if initialized then Deliveries(connectedUsers, followers, NewPostEvent, payload) else []
    {
      var i := 0;
      while i < |followers|
        invariant i <= |followers|
        invariant outbox == old(outbox) + if initialized then Deliveries(connectedUsers, followers[..i], NewPostEvent, payload) else []
      {
        var followerId := followers[i];
        if followerId in connectedUsers && Truthy(connectedUsers[followerId]) && initialized {
          outbox := outbox + [Emission(connectedUsers[followerId], NewPostEvent, payload)];
        }
        DeliveriesSnoc(connectedUsers, followers, i, NewPostEvent, payload);
        i := i + 1;
      }
      assert followers[..i] == followers;
    }

    /**
     * `notifyUserById`: at most one "user-event" emission, to the user's
     * socket. The table is only read.
     */
    method NotifyUserById(userId: UserId, payload: P)
      modifies this`outbox
      ensures outbox == old(outbox) + if initialized then Delivery(connectedUsers, userId, UserEvent, payload) else []
    {
      if userId in connectedUsers && Truthy(connectedUsers[userId]) && initialized {
        outbox := outbox + [Emission(connectedUsers[userId], UserEvent, payload)];
      }
    }
  }

  /** The key at `i` holds `s` and no earlier key does: it is the first holder. */
  lemma FirstHolderAt(keys: seq<UserId>, sockets: map<UserId, SocketId>, s: SocketId, i: nat)
    requires forall u :: u in keys ==> u in sockets
    requires i < |keys| && sockets[keys[i]] == s
    requires forall j :: 0 <= j < i ==> sockets[keys[j]] != s
    ensures FirstHolder(keys, sockets, s) == Some(i)
  {
  }

  /** Adding a fresh key and deleting it again gives back the map. */
  lemma DropAdded(m: map<UserId, SocketId>, u: UserId, s: SocketId)
    requires u !in m
    ensures m[u := s] - {u} == m
  {
    assert (m[u := s] - {u}).Keys == m.Keys;
  }

  lemma UpdatesCommute(m: map<UserId, SocketId>, a: UserId, b: UserId, s: SocketId)
    requires a != b
    ensures m[a := s][b := s] == m[b := s][a := s]
  {
  }

  /** Where the first holder sits, the disconnect deletes that key and nothing else. */
  lemma DisconnectedAt(t: Table, s: SocketId, i: nat)
    requires t.Valid() && i < |t.keys|
    requires FirstHolder(t.keys, t.sockets, s) == Some(i)
    ensures Disconnected(t, s) == Table(t.keys[..i] + t.keys[i + 1..], t.sockets - {t.keys[i]})
  {
  }

  /**
   * A table that extends `t` (same first keys, same sockets for them) and
   * whose first new key holds a socket no entry of `t` holds: disconnecting
   * that socket deletes exactly that first new key.
   */
  lemma DisconnectFirstNewcomer(t: Table, w: Table, s: SocketId)
    requires t.Valid() && w.Valid() && s !in t.sockets.Values
    requires |t.keys| < |w.keys| && w.keys[..|t.keys|] == t.keys
    requires forall u :: u in t.sockets ==> u in w.sockets && w.sockets[u] == t.sockets[u]
    requires w.sockets[w.keys[|t.keys|]] == s
    ensures Disconnected(w, s)
         == Table(w.keys[..|t.keys|] + w.keys[|t.keys| + 1..], w.sockets - {w.keys[|t.keys|]})
  {
    var n := |t.keys|;
    forall k | 0 <= k < n ensures w.sockets[w.keys[k]] != s {
      assert w.keys[k] == t.keys[k] && t.keys[k] in t.sockets;
    }
    FirstHolderAt(w.keys, w.sockets, s, n);
  }

  /**
   * A user who joins on a socket nobody else holds and then disconnects
   * leaves the table exactly as it was.
   */
  lemma JoinThenDisconnect(t: Table, u: UserId, s: SocketId)
    requires t.Valid() && u !in t.sockets && s !in t.sockets.Values
    ensures Disconnected(Joined(t, u, s), s) == t
  {
    var j := Joined(t, u, s);
    var n := |t.keys|;
    assert j.keys[..n] == t.keys;
    DisconnectFirstNewcomer(t, j, s);
    assert j.keys[..n] + j.keys[n + 1..] == t.keys;
    DropAdded(t.sockets, u, s);
  }

  /**
   * A user who re-joins on a new socket keeps that entry when the old
   * socket closes: only entries still holding the closing socket go.
   */
  lemma RejoinSurvivesOldDisconnect(t: Table, u: UserId, oldSocket: SocketId, newSocket: SocketId)
    requires t.Valid() && oldSocket != newSocket
    ensures var r := Disconnected(Joined(t, u, newSocket), oldSocket);
      u in r.sockets && r.sockets[u] == newSocket
  {
  }

  /**
   * One socket joined under two user ids: its disconnect deletes only the
   * entry of the user who joined first, and the other entry keeps pointing
   * at the closed socket.
   */
  lemma SharedSocketDisconnect(t: Table, u1: UserId, u2: UserId, s: SocketId)
    requires t.Valid() && u1 != u2 && u1 !in t.sockets && u2 !in t.sockets && s !in t.sockets.Values
    ensures Disconnected(Joined(Joined(t, u1, s), u2, s), s) == Table(t.keys + [u2], t.sockets[u2 := s])
  {
    var n := |t.keys|;
    var w := Table(t.keys + [u1, u2], t.sockets[u2 := s][u1 := s]);
    JoinedTwice(t, u1, u2, s);
    assert w.keys[..n] == t.keys;
    DisconnectFirstNewcomer(t, w, s);
    assert w.keys[..n] + w.keys[n + 1..] == t.keys + [u2];
    DropAdded(t.sockets[u2 := s], u1, s);
  }

  /** Two fresh users joining on the same socket, as one table value. */
  lemma JoinedTwice(t: Table, u1: UserId, u2: UserId, s: SocketId)
    requires t.Valid() && u1 != u2 && u1 !in t.sockets && u2 !in t.sockets
    ensures Joined(Joined(t, u1, s), u2, s) == Table(t.keys + [u1, u2], t.sockets[u2 := s][u1 := s])
  {
    assert t.keys + [u1] + [u2] == t.keys + [u1, u2];
    UpdatesCommute(t.sockets, u1, u2, s);
  }
}
