/**
The connection registry kept in Redis: one record per session and eight secondary
indexes over the records.  Seven of the indexes are sorted sets and one (ENDED) is a
plain set.  All sorted sets together are one map from (key, member) to score, so that
an empty sorted set and a missing one are the same thing, as they are in Redis.

Every public method of class Registry is one MULTI block and therefore one atomic step.
*/
module ConnectionRegistry {
  import opened Collections

  type Uuid = string

  // A line is identified by its user id, or by "hmac_id _ hmac_identifier".
  datatype Identity = User(id: int) | Hmac(hmacId: int, identifier: string)

  datatype Conn = Conn(identity: Identity, streamId: int, serverId: int, userId: int, dateStart: int,
                       ended: bool, pid: int, lastRead: int)

  datatype Key = Line(identity: Identity) | LineAll(identity: Identity) | Stream(id: int) | Server(id: int)
               | ServerLines(id: int) | Connections | Live

  datatype Entry = Entry(key: Key, uuid: Uuid)

  datatype Store = Store(recs: map<Uuid, Conn>, z: map<Entry, int>, ended: set<Uuid>)

  // The fields a caller overwrites when it updates a record.
  datatype Changes = Changes(serverId: Option<int>, pid: Option<int>, lastRead: Option<int>)
  datatype Mode = Open | Close | Touch

  // ---------------------------------------------------------------- what the indexes mean

  /** The record c belongs in the index k. */
  predicate Listed(k: Key, c: Conn) {
    match k
    case Line(i) => !c.ended && c.identity == i
    case LineAll(i) => c.identity == i
    case Stream(i) => !c.ended && c.streamId == i
    case Server(i) => !c.ended && c.serverId == i
    case ServerLines(i) => !c.ended && c.userId != 0 && c.serverId == i
    case Connections => true
    case Live => !c.ended
  }

  function Score(k: Key, c: Conn): int {
    if k.ServerLines? then c.userId else c.dateStart
  }

  predicate Wanted(recs: map<Uuid, Conn>, e: Entry) {
    e.uuid in recs && Listed(e.key, recs[e.uuid])
  }

  ghost predicate EndedExact(s: Store) {
    forall u :: u in s.ended <==> u in s.recs && s.recs[u].ended
  }

  predicate Exact(s: Store, e: Entry) {
    && (e in s.z <==> Wanted(s.recs, e))
    && (e in s.z ==> s.z[e] == Score(e.key, s.recs[e.uuid]))
  }

  /** Every index holds exactly what the records define, with the right scores. */
  ghost predicate Consistent(s: Store) {
    (forall e: Entry :: Exact(s, e)) && EndedExact(s)
  }

  predicate NearlyExact(s: Store, e: Entry) {
    if e.key.ServerLines? then true
    else if e.key.Server? then Wanted(s.recs, e) ==> e in s.z
    else Exact(s, e)
  }

  /** What survives any use at all: six indexes are exact and SERVER# misses no open session. */
  ghost predicate WeaklyConsistent(s: Store) {
    (forall e: Entry :: NearlyExact(s, e)) && EndedExact(s)
  }

  /** The records determine the whole store. */
  lemma ConsistentIsUnique(s: Store, t: Store)
    requires Consistent(s) && Consistent(t) && s.recs == t.recs
    ensures s == t
  {
    forall e ensures e in s.z <==> e in t.z { assert Exact(s, e) && Exact(t, e); }
    forall e | e in s.z ensures s.z[e] == t.z[e] { assert Exact(s, e) && Exact(t, e); }
    assert s.z == t.z;
    assert s.ended == t.ended;
  }

  // ---------------------------------------------------------------- the steps, as store updates

  function LiveKeys(c: Conn): set<Key> { {Live, Line(c.identity), Stream(c.streamId), Server(c.serverId)} }

  function UserKeys(c: Conn): set<Key> { if c.userId != 0 then {ServerLines(c.serverId)} else {} }

  function AllKeys(c: Conn): set<Key> { LiveKeys(c) + UserKeys(c) + {LineAll(c.identity), Connections} }

  function Add(z: map<Entry, int>, ks: set<Key>, u: Uuid, c: Conn): map<Entry, int> {
    z + map k | k in ks :: Entry(k, u) := Score(k, c)
  }

  function Drop(z: map<Entry, int>, ks: set<Key>, u: Uuid): map<Entry, int> {
    z - set k | k in ks :: Entry(k, u)
  }

  // One more command of a block, seen as one more key of its effect.

  lemma Linked(z: map<Entry, int>, ks: set<Key>, k: Key, u: Uuid, c: Conn) returns (ks': set<Key>)
    ensures ks' == ks + {k}
    ensures Add(z, ks', u, c) == Add(z, ks, u, c)[Entry(k, u) := Score(k, c)]
  {
    ks' := ks + {k};
  }

  lemma Unlinked(z: map<Entry, int>, ks: set<Key>, k: Key, u: Uuid) returns (ks': set<Key>)
    ensures ks' == ks + {k}
    ensures Drop(z, ks', u) == Drop(z, ks, u) - {Entry(k, u)}
  {
    ks' := ks + {k};
  }

  function Changed(c: Conn, ch: Changes): Conn {
    c.(serverId := if ch.serverId.Some? then ch.serverId.value else c.serverId,
       pid := if ch.pid.Some? then ch.pid.value else c.pid,
       lastRead := if ch.lastRead.Some? then ch.lastRead.value else c.lastRead)
  }

  function Created(s: Store, u: Uuid, c: Conn): Store {
    Store(s.recs[u := c], Add(s.z, AllKeys(c), u, c), s.ended)
  }

  function Updated(s: Store, u: Uuid, c: Conn, ch: Changes, mode: Mode): Store {
    var d := Changed(c, ch);
    match mode
    case Open =>
      Store(s.recs[u := d.(ended := false)],
            Add(s.z, LiveKeys(d) + (if d.ended then UserKeys(d) else {}), u, d), s.ended - {u})
    case Close =>
      Store(s.recs[u := d.(ended := true)],
            Drop(s.z, LiveKeys(c) + (if d.ended then {} else UserKeys(c)), u), s.ended + {u})
    case Touch =>
      s.(recs := s.recs[u := d])
  }

  function Removed(s: Store, u: Uuid, c: Conn): Store {
    Store(s.recs - {u}, Drop(s.z, AllKeys(c), u), s.ended - {u})
  }

  /** A row of the SQL session table that still has to be copied into Redis. */
  datatype Row = Row(uuid: Uuid, hmacId: int, identifier: string, streamId: int, serverId: int, userId: int,
                     dateStart: int, pid: int, lastRead: int)

  function RowConn(r: Row): Conn {
    Conn(if r.hmacId == 0 then User(r.userId) else Hmac(r.hmacId, r.identifier),
         r.streamId, r.serverId, r.userId, r.dateStart, false, r.pid, r.lastRead)
  }

  function Resynced(s: Store, rows: seq<Row>): Store {
    if rows == [] then s
    else
      var last := rows[|rows| - 1];
      Created(Resynced(s, rows[..|rows| - 1]), last.uuid, RowConn(last))
  }

  // ---------------------------------------------------------------- bulk deletion

  datatype Session = Session(uuid: Uuid, conn: Conn)

  /** The accumulator that the periodic sweep fills before it deletes. */
  datatype Batch = Batch(line: map<Identity, seq<Uuid>>, stream: map<int, seq<Uuid>>, server: map<int, seq<Uuid>>,
                         uuid: seq<Uuid>, count: nat)

  const EMPTY_BATCH := Batch(map[], map[], map[], [], 0)

  function Pushed<K>(m: map<K, seq<Uuid>>, k: K, u: Uuid): map<K, seq<Uuid>> {
    m[k := (if k in m then m[k] else []) + [u]]
  }

  function Queued(b: Batch, x: Session): Batch {
    Batch(Pushed(b.line, x.conn.identity, x.uuid), Pushed(b.stream, x.conn.streamId, x.uuid),
          Pushed(b.server, x.conn.serverId, x.uuid), b.uuid + [x.uuid], b.count + 1)
  }

  function BatchOf(xs: seq<Session>): Batch {
    if xs == [] then EMPTY_BATCH else Queued(BatchOf(xs[..|xs| - 1]), xs[|xs| - 1])
  }

  predicate InGroup<K>(m: map<K, seq<Uuid>>, k: K, u: Uuid) { k in m && u in m[k] }

  /** The sorted-set entries a batch deletes. */
  predicate Deletes(b: Batch, e: Entry) {
    match e.key
    case Line(i) => InGroup(b.line, i, e.uuid)
    case LineAll(i) => InGroup(b.line, i, e.uuid)
    case Stream(i) => InGroup(b.stream, i, e.uuid)
    case Server(i) => InGroup(b.server, i, e.uuid)
    case ServerLines(i) => InGroup(b.server, i, e.uuid)
    case Connections => e.uuid in b.uuid
    case Live => e.uuid in b.uuid
  }

  function Without(z: map<Entry, int>, p: Entry -> bool): map<Entry, int> {
    map e | e in z && !p(e) :: z[e]
  }

  function BulkRemoved(s: Store, b: Batch): Store {
    if b.count == 0 then s
    else Store(s.recs - (set u | u in b.uuid), Without(s.z, (e: Entry) => Deletes(b, e)),
               s.ended - (set u | u in b.uuid))
  }

  function BulkRemovedAll(s: Store, chunks: seq<seq<Session>>): Store {
    if chunks == [] then s
    else BulkRemoved(BulkRemovedAll(s, chunks[..|chunks| - 1]), BatchOf(chunks[|chunks| - 1]))
  }

  function RemovedEach(s: Store, xs: seq<Session>): Store {
    if xs == [] then s
    else Removed(RemovedEach(s, xs[..|xs| - 1]), xs[|xs| - 1].uuid, xs[|xs| - 1].conn)
  }

  function Flat(chunks: seq<seq<Session>>): seq<Session> {
    if chunks == [] then [] else Flat(chunks[..|chunks| - 1]) + chunks[|chunks| - 1]
  }

  // ---------------------------------------------------------------- the shared store

  class Registry {
    var recs: map<Uuid, Conn>
    var z: map<Entry, int>
    var ended: set<Uuid>

    ghost function Contents(): Store
      reads this
    {
      Store(recs, z, ended)
    }

    constructor ()
      ensures Contents() == Store(map[], map[], {})
    {
      recs, z, ended := map[], map[], {};
    }

    // In the three blocks below tx is the transaction being queued and ks the keys it has touched.

    method CreateConnection(u: Uuid, data: Conn)
      modifies this
      ensures Contents() == Created(old(Contents()), u, data)
    {
      var tx := ZAddLive(z, u, data);
      ghost var ks := LiveKeys(data);
      if data.userId != 0 {
        tx := tx[Entry(ServerLines(data.serverId), u) := data.userId];
        ks := Linked(z, ks, ServerLines(data.serverId), u, data);
      }
      tx := tx[Entry(LineAll(data.identity), u) := data.dateStart];
      ks := Linked(z, ks, LineAll(data.identity), u, data);
      tx := tx[Entry(Connections, u) := data.dateStart];
      ks := Linked(z, ks, Connections, u, data);
      assert ks == AllKeys(data);
      recs, z := recs[u := data], tx;
    }

    /** Update one record and its index entries; the new record is handed back to the caller. */
    method UpdateConnection(u: Uuid, orig: Conn, changes: Changes, mode: Mode) returns (data: Conn)
      modifies this
      ensures Contents() == Updated(old(Contents()), u, orig, changes, mode)
      ensures recs == old(recs)[u := data]
      ensures data.serverId == if changes.serverId.Some? then changes.serverId.value else orig.serverId
      ensures data.pid == if changes.pid.Some? then changes.pid.value else orig.pid
      ensures data.lastRead == if changes.lastRead.Some? then changes.lastRead.value else orig.lastRead
      ensures data.ended == (mode == Close || (mode == Touch && orig.ended))
      ensures data.identity == orig.identity && data.streamId == orig.streamId
      ensures data.userId == orig.userId && data.dateStart == orig.dateStart
    {
      data := Changed(orig, changes);
      var tx := z;
      ghost var ks, d := {}, data;
      if mode == Open {
        tx := ZAddLive(z, u, data);
        ks := LiveKeys(data);
        if data.ended {
          data := data.(ended := false);
          if data.userId != 0 {
            tx := tx[Entry(ServerLines(data.serverId), u) := data.userId];
            ks := Linked(z, ks, ServerLines(data.serverId), u, d);
          }
        }
        assert ks == LiveKeys(d) + (if d.ended then UserKeys(d) else {});
        ended := ended - {u};
      } else if mode == Close {
        tx := ZRemLive(z, u, orig);
        ks := LiveKeys(orig);
        if !data.ended {
          data := data.(ended := true);
          if data.userId != 0 {
            tx := tx - {Entry(ServerLines(orig.serverId), u)};
            ks := Unlinked(z, ks, ServerLines(orig.serverId), u);
          }
        }
        assert ks == LiveKeys(orig) + (if d.ended then {} else UserKeys(orig));
        ended := ended + {u};
      }
      recs, z := recs[u := data], tx;
    }

    /** The MULTI block at the end of closing a connection for good. */
    method RemoveConnection(u: Uuid, info: Conn)
      modifies this
      ensures Contents() == Removed(old(Contents()), u, info)
    {
      var tx := ZRemLive(z, u, info);
      ghost var ks := LiveKeys(info);
      if info.userId != 0 {
        tx := tx - {Entry(ServerLines(info.serverId), u)};
        ks := Unlinked(z, ks, ServerLines(info.serverId), u);
      }
      tx := tx - {Entry(LineAll(info.identity), u)};
      ks := Unlinked(z, ks, LineAll(info.identity), u);
      tx := tx - {Entry(Connections, u)};
      ks := Unlinked(z, ks, Connections, u);
      assert ks == AllKeys(info);
      recs, z, ended := recs - {u}, tx, ended - {u};
    }

    /** Copy the SQL rows that are still open into Redis. */
    method Resync(rows: seq<Row>)
      modifies this
      ensures Contents() == Resynced(old(Contents()), rows)
    {
      for i := 0 to |rows|
        invariant Contents() == Resynced(old(Contents()), rows[..i])
      {
        CreateConnection(rows[i].uuid, RowConn(rows[i]));
        assert rows[..i + 1][..i] == rows[..i];
      }
      assert rows[..|rows|] == rows;
    }

    /**
    Delete everything an accumulated batch names, tell the other servers, drop the marker files; the batch
    starts anew.
    */
    method ProcessDeletions(b: Batch, self: int) returns (rest: Batch, signals: multiset<Notice>, dropped: set<Marker>)
      modifies this
      ensures Contents() == BulkRemoved(old(Contents()), b) && rest == EMPTY_BATCH
      ensures forall n :: signals[n] == Announced(b.server, self, n)
      ensures forall f :: f in dropped <==> InGroup(b.stream, f.stream, f.uuid)
    {
      if b.count > 0 {
        var tx := DropBatch(z, b);
        z := tx;
        if |b.uuid| > 0 {
          ended := ended - set u | u in b.uuid;
          recs := recs - set u | u in b.uuid;
        }
      }
      signals := Announce(b.server, self);
      dropped := set i, u | i in b.stream && u in b.stream[i] :: Marker(i, u);
      rest := EMPTY_BATCH;
    }
  }

  // The four commands that every block has in common, whichever way it goes.

  method ZAddLive(z: map<Entry, int>, u: Uuid, c: Conn) returns (tx: map<Entry, int>)
    ensures tx == Add(z, LiveKeys(c), u, c)
  {
    ghost var ks := {};
    tx := z;
    assert tx == Add(z, ks, u, c);
    tx := tx[Entry(Live, u) := c.dateStart];
    ks := Linked(z, ks, Live, u, c);
    tx := tx[Entry(Line(c.identity), u) := c.dateStart];
    ks := Linked(z, ks, Line(c.identity), u, c);
    tx := tx[Entry(Stream(c.streamId), u) := c.dateStart];
    ks := Linked(z, ks, Stream(c.streamId), u, c);
    tx := tx[Entry(Server(c.serverId), u) := c.dateStart];
    ks := Linked(z, ks, Server(c.serverId), u, c);
    assert ks == LiveKeys(c);
  }

  method ZRemLive(z: map<Entry, int>, u: Uuid, c: Conn) returns (tx: map<Entry, int>)
    ensures tx == Drop(z, LiveKeys(c), u)
  {
    ghost var ks := {};
    tx := z;
    assert tx == Drop(z, ks, u);
    tx := tx - {Entry(Live, u)};
    ks := Unlinked(z, ks, Live, u);
    tx := tx - {Entry(Line(c.identity), u)};
    ks := Unlinked(z, ks, Line(c.identity), u);
    tx := tx - {Entry(Stream(c.streamId), u)};
    ks := Unlinked(z, ks, Stream(c.streamId), u);
    tx := tx - {Entry(Server(c.serverId), u)};
    ks := Unlinked(z, ks, Server(c.serverId), u);
    assert ks == LiveKeys(c);
  }

  // ---------------------------------------------------------------- what a bulk deletion tells the other servers

  // A delete_con signal, and a marker file of a connection.
  datatype Notice = Notice(server: int, uuid: Uuid)
  datatype Marker = Marker(stream: int, uuid: Uuid)

  /** How often a connection is announced: once for every time it is queued under that server, and never to oneself. */
  function Announced(server: map<int, seq<Uuid>>, self: int, n: Notice): nat {
    if n.server == self || n.server !in server then 0 else multiset(server[n.server])[n.uuid]
  }

  method Announce(server: map<int, seq<Uuid>>, self: int) returns (signals: multiset<Notice>)
    ensures forall n :: signals[n] == Announced(server, self, n)
  {
    signals := multiset{};
    var todo := server.Keys;
    while todo != {}
      invariant todo <= server.Keys
      invariant forall n: Notice :: signals[n] == if n.server in todo then 0 else Announced(server, self, n)
    {
      var i := Any(todo);
      if i != self {
        var more := NoticesTo(i, server[i]);
        signals := signals + more;
      }
      todo := todo - {i};
    }
  }

  method NoticesTo(server: int, us: seq<Uuid>) returns (r: multiset<Notice>)
    ensures forall n: Notice :: r[n] == if n.server == server then multiset(us)[n.uuid] else 0
  {
    r := multiset{};
    for i := 0 to |us|
      invariant forall n: Notice :: r[n] == if n.server == server then multiset(us[..i])[n.uuid] else 0
    {
      assert us[..i + 1] == us[..i] + [us[i]];
      r := r + multiset{Notice(server, us[i])};
    }
    assert us[..|us|] == us;
  }

  predicate Grouped(k: Key) { !k.Connections? && !k.Live? }

  /** The sorted-set half of a bulk deletion. */
  method DropBatch(z: map<Entry, int>, b: Batch) returns (r: map<Entry, int>)
    ensures r == Without(z, (e: Entry) => Deletes(b, e))
  {
    r := DropGroups(z, b);
    if |b.uuid| > 0 {
      r := ZRem(r, Connections, b.uuid);
      r := ZRem(r, Live, b.uuid);
    }
  }

  method DropGroups(z: map<Entry, int>, b: Batch) returns (r: map<Entry, int>)
    ensures r == Without(z, (e: Entry) => Grouped(e.key) && Deletes(b, e))
  {
    r := DropLines(z, b.line);
    r := DropStreams(r, b.stream);
    r := DropServers(r, b.server);
  }

  /** Remove many members from one sorted set. */
  method ZRem(z: map<Entry, int>, k: Key, us: seq<Uuid>) returns (r: map<Entry, int>)
    ensures r == Without(z, (e: Entry) => e.key == k && e.uuid in us)
  {
    r := z;
    for i := 0 to |us|
      invariant r == Without(z, (e: Entry) => e.key == k && e.uuid in us[..i])
    {
      r := r - {Entry(k, us[i])};
      assert us[..i + 1] == us[..i] + [us[i]];
    }
    assert us[..|us|] == us;
  }

  /** Some next key of a map being walked; the order of the walk does not matter here. */
  method Any<K(==)>(s: set<K>) returns (k: K)
    requires s != {}
    ensures k in s
  {
    k :| k in s;
  }

  // The three grouped loops of a bulk deletion.

  method DropLines(z: map<Entry, int>, line: map<Identity, seq<Uuid>>) returns (r: map<Entry, int>)
    ensures r == Without(z, (e: Entry) => (e.key.Line? || e.key.LineAll?) && InGroup(line, e.key.identity, e.uuid))
  {
    r := z;
    var todo := line.Keys;
    while todo != {}
      invariant todo <= line.Keys
      invariant r == Without(z, (e: Entry) => (e.key.Line? || e.key.LineAll?) && e.key.identity !in todo
                                              && InGroup(line, e.key.identity, e.uuid))
    {
      var i := Any(todo);
      r := ZRem(r, Line(i), line[i]);
      r := ZRem(r, LineAll(i), line[i]);
      todo := todo - {i};
    }
  }

  method DropStreams(z: map<Entry, int>, stream: map<int, seq<Uuid>>) returns (r: map<Entry, int>)
    ensures r == Without(z, (e: Entry) => e.key.Stream? && InGroup(stream, e.key.id, e.uuid))
  {
    r := z;
    var todo := stream.Keys;
    while todo != {}
      invariant todo <= stream.Keys
      invariant r == Without(z, (e: Entry) => e.key.Stream? && e.key.id !in todo && InGroup(stream, e.key.id, e.uuid))
    {
      var i := Any(todo);
      r := ZRem(r, Stream(i), stream[i]);
      todo := todo - {i};
    }
  }

  method DropServers(z: map<Entry, int>, server: map<int, seq<Uuid>>) returns (r: map<Entry, int>)
    ensures r == Without(z, (e: Entry) => (e.key.Server? || e.key.ServerLines?) && InGroup(server, e.key.id, e.uuid))
  {
    r := z;
    var todo := server.Keys;
    while todo != {}
      invariant todo <= server.Keys
      invariant r == Without(z, (e: Entry) => (e.key.Server? || e.key.ServerLines?) && e.key.id !in todo
                                              && InGroup(server, e.key.id, e.uuid))
    {
      var i := Any(todo);
      r := ZRem(r, Server(i), server[i]);
      r := ZRem(r, ServerLines(i), server[i]);
      todo := todo - {i};
    }
  }
}
