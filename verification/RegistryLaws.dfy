/** What every run of registry steps keeps, and what exactly goes wrong when a live session changes server. */
module RegistryLaws {
  import opened ConnectionRegistry

  // A step reads the record it works on and writes it back in the same transaction.
  datatype Step = DoCreate(uuid: Uuid, conn: Conn)
                | DoUpdate(uuid: Uuid, changes: Changes, mode: Mode)
                | DoRemove(uuid: Uuid)
                | DoBulk(uuids: seq<Uuid>)
                | DoResync(rows: seq<Row>)

  predicate Distinct(rows: seq<Row>) {
    forall i, j :: 0 <= i < j < |rows| ==> rows[i].uuid != rows[j].uuid
  }

  /** The circumstances in which the scripts issue the step at all. */
  predicate Enabled(s: Store, st: Step) {
    match st
    case DoCreate(u, c) => u !in s.recs && !c.ended
    case DoUpdate(u, ch, mode) => u in s.recs && (mode == Touch ==> ch.serverId.None?)
    case DoRemove(u) => u in s.recs
    case DoBulk(us) => forall u :: u in us ==> u in s.recs
    case DoResync(rows) => Distinct(rows) && forall r :: r in rows ==> r.uuid !in s.recs
  }

  function Sessions(s: Store, us: seq<Uuid>): (xs: seq<Session>)
    requires forall u :: u in us ==> u in s.recs
    ensures |xs| == |us| && forall i :: 0 <= i < |xs| ==> xs[i] == Session(us[i], s.recs[us[i]])
  {
    seq(|us|, i requires 0 <= i < |us| => Session(us[i], s.recs[us[i]]))
  }

  function Apply(s: Store, st: Step): Store
    requires Enabled(s, st)
  {
    match st
    case DoCreate(u, c) => Created(s, u, c)
    case DoUpdate(u, ch, mode) => Updated(s, u, s.recs[u], ch, mode)
    case DoRemove(u) => Removed(s, u, s.recs[u])
    case DoBulk(us) => BulkRemoved(s, BatchOf(Sessions(s, us)))
    case DoResync(rows) => Resynced(s, rows)
  }

  /** The step opens a session that is already live and gives it another server. */
  predicate MovesLiveSession(s: Store, st: Step)
    requires Enabled(s, st)
  {
    st.DoUpdate? && st.mode == Open && !s.recs[st.uuid].ended
    && Changed(s.recs[st.uuid], st.changes).serverId != s.recs[st.uuid].serverId
  }

  predicate Runnable(s: Store, run: seq<Step>)
    decreases |run|
  {
    run == [] || (Enabled(s, run[0]) && Runnable(Apply(s, run[0]), run[1..]))
  }

  function Final(s: Store, run: seq<Step>): Store
    requires Runnable(s, run)
    decreases |run|
  {
    if run == [] then s else Final(Apply(s, run[0]), run[1..])
  }

  predicate NeverMoves(s: Store, run: seq<Step>)
    requires Runnable(s, run)
    decreases |run|
  {
    run == [] || (!MovesLiveSession(s, run[0]) && NeverMoves(Apply(s, run[0]), run[1..]))
  }

  const EMPTY := Store(map[], map[], {})

  lemma DroppedEntry(z: map<Entry, int>, ks: set<Key>, u: Uuid, e: Entry)
    ensures e in Drop(z, ks, u) <==> e in z && !(e.uuid == u && e.key in ks)
  {
    assert e == Entry(e.key, e.uuid);
  }

  // ---------------------------------------------------------------- single steps, one entry at a time

  lemma CreatedEntry(s: Store, u: Uuid, c: Conn, e: Entry)
    requires u !in s.recs && !c.ended
    ensures Exact(s, e) ==> Exact(Created(s, u, c), e)
    ensures NearlyExact(s, e) ==> NearlyExact(Created(s, u, c), e)
  {
    assert e == Entry(e.key, e.uuid);
  }

  lemma ClosedEntry(s: Store, u: Uuid, ch: Changes, e: Entry)
    requires u in s.recs
    ensures Exact(s, e) ==> Exact(Updated(s, u, s.recs[u], ch, Close), e)
    ensures NearlyExact(s, e) ==> NearlyExact(Updated(s, u, s.recs[u], ch, Close), e)
  {
    assert e == Entry(e.key, e.uuid);
  }

  lemma OpenedEntry(s: Store, u: Uuid, ch: Changes, e: Entry)
    requires u in s.recs
    ensures Exact(s, e) && (s.recs[u].ended || Changed(s.recs[u], ch).serverId == s.recs[u].serverId)
            ==> Exact(Updated(s, u, s.recs[u], ch, Open), e)
    ensures NearlyExact(s, e) ==> NearlyExact(Updated(s, u, s.recs[u], ch, Open), e)
  {
    assert e == Entry(e.key, e.uuid);
  }

  lemma TouchedEntry(s: Store, u: Uuid, ch: Changes, e: Entry)
    requires u in s.recs && ch.serverId.None?
    ensures Exact(s, e) ==> Exact(Updated(s, u, s.recs[u], ch, Touch), e)
    ensures NearlyExact(s, e) ==> NearlyExact(Updated(s, u, s.recs[u], ch, Touch), e)
  {
  }

  lemma RemovedEntry(s: Store, u: Uuid, e: Entry)
    requires u in s.recs
    ensures Exact(s, e) ==> Exact(Removed(s, u, s.recs[u]), e)
    ensures NearlyExact(s, e) ==> NearlyExact(Removed(s, u, s.recs[u]), e)
  {
    assert e == Entry(e.key, e.uuid);
  }

  // ---------------------------------------------------------------- whole steps

  lemma CreateKeeps(s: Store, u: Uuid, c: Conn)
    requires u !in s.recs && !c.ended
    ensures Consistent(s) ==> Consistent(Created(s, u, c))
    ensures WeaklyConsistent(s) ==> WeaklyConsistent(Created(s, u, c))
  {
    forall e: Entry { CreatedEntry(s, u, c, e); }
  }

  lemma {:induction false} ResyncKeeps(s: Store, rows: seq<Row>)
    requires Distinct(rows) && forall r :: r in rows ==> r.uuid !in s.recs
    ensures Consistent(s) ==> Consistent(Resynced(s, rows))
    ensures WeaklyConsistent(s) ==> WeaklyConsistent(Resynced(s, rows))
    ensures forall u :: u in Resynced(s, rows).recs ==> u in s.recs || exists r :: r in rows && r.uuid == u
  {
    if rows != [] {
      var before, last := rows[..|rows| - 1], rows[|rows| - 1];
      assert rows == before + [last];
      ResyncKeeps(s, before);
      assert last.uuid !in Resynced(s, before).recs;
      CreateKeeps(Resynced(s, before), last.uuid, RowConn(last));
      forall u | u in Resynced(s, rows).recs ensures u in s.recs || exists r :: r in rows && r.uuid == u {
        if u == last.uuid { assert last in rows; }
      }
    }
  }

  lemma UpdateKeeps(s: Store, u: Uuid, ch: Changes, mode: Mode)
    requires Enabled(s, DoUpdate(u, ch, mode))
    ensures Consistent(s) && !MovesLiveSession(s, DoUpdate(u, ch, mode))
            ==> Consistent(Updated(s, u, s.recs[u], ch, mode))
    ensures WeaklyConsistent(s) ==> WeaklyConsistent(Updated(s, u, s.recs[u], ch, mode))
  {
    forall e: Entry
      ensures Exact(s, e) && !MovesLiveSession(s, DoUpdate(u, ch, mode))
              ==> Exact(Updated(s, u, s.recs[u], ch, mode), e)
      ensures NearlyExact(s, e) ==> NearlyExact(Updated(s, u, s.recs[u], ch, mode), e)
    {
      match mode
      case Open => OpenedEntry(s, u, ch, e);
      case Close => ClosedEntry(s, u, ch, e);
      case Touch => TouchedEntry(s, u, ch, e);
    }
  }

  lemma RemoveKeeps(s: Store, u: Uuid)
    requires u in s.recs
    ensures Consistent(s) ==> Consistent(Removed(s, u, s.recs[u]))
    ensures WeaklyConsistent(s) ==> WeaklyConsistent(Removed(s, u, s.recs[u]))
  {
    forall e: Entry { RemovedEntry(s, u, e); }
  }

  // ---------------------------------------------------------------- what a resync makes of a row

  /** The index k lists the row of the session table, by the row's own columns. */
  predicate RowListed(k: Key, r: Row) {
    match k
    case Line(User(id)) => r.hmacId == 0 && r.userId == id
    case Line(Hmac(hmac, identifier)) => r.hmacId != 0 && r.hmacId == hmac && r.identifier == identifier
    case LineAll(User(id)) => r.hmacId == 0 && r.userId == id
    case LineAll(Hmac(hmac, identifier)) => r.hmacId != 0 && r.hmacId == hmac && r.identifier == identifier
    case Stream(id) => r.streamId == id
    case Server(id) => r.serverId == id
    case ServerLines(id) => r.userId != 0 && r.serverId == id
    case Connections => true
    case Live => true
  }

  /** The record has the row's columns, and the session is live. */
  predicate Mirrors(c: Conn, r: Row) {
    && !c.ended && c.streamId == r.streamId && c.serverId == r.serverId && c.userId == r.userId
    && c.dateStart == r.dateStart && c.pid == r.pid && c.lastRead == r.lastRead
    && c.identity == if r.hmacId == 0 then User(r.userId) else Hmac(r.hmacId, r.identifier)
  }

  /** The entry is as the row says if the row is listed there, scored by its start or its user; else it is as before. */
  predicate ListedFrom(s: Store, t: Store, r: Row, e: Entry) {
    if e.uuid == r.uuid && RowListed(e.key, r) then
      e in t.z && t.z[e] == if e.key.ServerLines? then r.userId else r.dateStart
    else SameEntry(s, t, e)
  }

  predicate SameEntry(s: Store, t: Store, e: Entry) { (e in t.z <==> e in s.z) && (e in s.z ==> t.z[e] == s.z[e]) }

  lemma CreatedFromRow(s: Store, r: Row, e: Entry)
    ensures ListedFrom(s, Created(s, r.uuid, RowConn(r)), r, e)
    ensures Mirrors(RowConn(r), r)
  {
    assert e == Entry(e.key, e.uuid);
  }

  /**
  After a resync every row is a live record with the row's own columns; each index lists it where the columns say,
  scored by its start or, among the lines of its server, by its user; and nothing else is added to any index.
  */
  lemma {:induction false} ResyncedRow(s: Store, rows: seq<Row>, i: nat, e: Entry)
    requires Distinct(rows) && i < |rows| && e.uuid == rows[i].uuid
    ensures rows[i].uuid in Resynced(s, rows).recs && Mirrors(Resynced(s, rows).recs[rows[i].uuid], rows[i])
    ensures ListedFrom(s, Resynced(s, rows), rows[i], e)
  {
    var n := |rows| - 1;
    var before := rows[..n];
    var t := Resynced(s, before);
    CreatedFromRow(t, rows[n], e);
    if i < n {
      assert rows[i].uuid != rows[n].uuid && before[i] == rows[i];
      ResyncedRow(s, before, i, e);
    } else {
      ResyncedElsewhere(s, before, e);
    }
  }

  lemma {:induction false} ResyncedElsewhere(s: Store, rows: seq<Row>, e: Entry)
    requires forall r :: r in rows ==> r.uuid != e.uuid
    ensures SameEntry(s, Resynced(s, rows), e)
    ensures e.uuid in Resynced(s, rows).recs <==> e.uuid in s.recs
    ensures e.uuid in s.recs ==> Resynced(s, rows).recs[e.uuid] == s.recs[e.uuid]
  {
    if rows != [] {
      ResyncedElsewhere(s, rows[..|rows| - 1], e);
      CreatedFromRow(Resynced(s, rows[..|rows| - 1]), rows[|rows| - 1], e);
    }
  }

  // ---------------------------------------------------------------- bulk deletion

  /** Bulk deletion takes a session out of this index; unlike a single removal it never looks at the user id. */
  predicate BulkHits(k: Key, c: Conn) {
    match k
    case Line(i) => c.identity == i
    case LineAll(i) => c.identity == i
    case Stream(i) => c.streamId == i
    case Server(i) => c.serverId == i
    case ServerLines(i) => c.serverId == i
    case Connections => true
    case Live => true
  }

  predicate BulkNames(xs: seq<Session>, e: Entry) {
    exists x :: x in xs && x.uuid == e.uuid && BulkHits(e.key, x.conn)
  }

  predicate EachNames(xs: seq<Session>, e: Entry) {
    exists x :: x in xs && x.uuid == e.uuid && e.key in AllKeys(x.conn)
  }

  function Uuids(xs: seq<Session>): set<Uuid> { set x | x in xs :: x.uuid }

  lemma QueuedMeans(b: Batch, x: Session, e: Entry)
    ensures Deletes(Queued(b, x), e) <==> Deletes(b, e) || (x.uuid == e.uuid && BulkHits(e.key, x.conn))
  {
  }

  lemma {:induction false} BatchMeans(xs: seq<Session>, e: Entry)
    ensures Deletes(BatchOf(xs), e) <==> BulkNames(xs, e)
  {
    if xs != [] {
      var before, last := xs[..|xs| - 1], xs[|xs| - 1];
      assert xs == before + [last];
      BatchMeans(before, e);
      QueuedMeans(BatchOf(before), last, e);
    }
  }

  lemma {:induction false} BatchUuids(xs: seq<Session>)
    ensures (set u | u in BatchOf(xs).uuid) == Uuids(xs)
    ensures BatchOf(xs).count == |xs|
  {
    if xs != [] {
      var before, last := xs[..|xs| - 1], xs[|xs| - 1];
      assert xs == before + [last];
      BatchUuids(before);
      assert Uuids(xs) == Uuids(before) + {last.uuid};
    }
  }

  lemma {:induction false} EachMeans(s: Store, xs: seq<Session>, e: Entry)
    ensures e in RemovedEach(s, xs).z <==> e in s.z && !EachNames(xs, e)
    ensures e in RemovedEach(s, xs).z ==> RemovedEach(s, xs).z[e] == s.z[e]
    ensures RemovedEach(s, xs).recs == s.recs - Uuids(xs)
    ensures RemovedEach(s, xs).ended == s.ended - Uuids(xs)
  {
    if xs != [] {
      var before, last := xs[..|xs| - 1], xs[|xs| - 1];
      assert xs == before + [last];
      EachMeans(s, before, e);
      assert e == Entry(e.key, e.uuid);
      assert EachNames(xs, e) <==> EachNames(before, e) || (last.uuid == e.uuid && e.key in AllKeys(last.conn));
      assert Uuids(xs) == Uuids(before) + {last.uuid};
    }
  }

  /**
  A session without a user that is listed among its server's lines is also queued as a session of some user
  there.
  */
  ghost predicate NoStrayLines(s: Store, xs: seq<Session>) {
    forall x :: x in xs && x.conn.userId == 0 && Entry(ServerLines(x.conn.serverId), x.uuid) in s.z ==>
      HasUserTwin(xs, x)
  }

  predicate HasUserTwin(xs: seq<Session>, x: Session) {
    exists y :: y in xs && y.uuid == x.uuid && y.conn.serverId == x.conn.serverId && y.conn.userId != 0
  }

  lemma BulkIsEachAt(s: Store, xs: seq<Session>, e: Entry)
    requires NoStrayLines(s, xs) && e in s.z
    ensures BulkNames(xs, e) <==> EachNames(xs, e)
  {
    assert e == Entry(e.key, e.uuid);
    if x :| x in xs && x.uuid == e.uuid && BulkHits(e.key, x.conn) && e.key !in AllKeys(x.conn) {
      var y :| y in xs && y.uuid == x.uuid && y.conn.serverId == x.conn.serverId && y.conn.userId != 0;
      assert e.key in AllKeys(y.conn);
    }
    forall x | x in xs && e.key in AllKeys(x.conn) ensures BulkHits(e.key, x.conn) {
    }
  }

  /** What t lists under the entry e is what s lists there, unless the batch names it. */
  predicate Spares(s: Store, t: Store, xs: seq<Session>, e: Entry) {
    (e in t.z <==> e in s.z && !BulkNames(xs, e)) && (e in t.z ==> t.z[e] == s.z[e])
  }

  lemma BulkMeans(s: Store, xs: seq<Session>, e: Entry)
    ensures Spares(s, BulkRemoved(s, BatchOf(xs)), xs, e)
  {
    BatchMeans(xs, e);
    BatchUuids(xs);
  }

  lemma BulkRecords(s: Store, xs: seq<Session>)
    ensures BulkRemoved(s, BatchOf(xs)).recs == s.recs - Uuids(xs)
    ensures BulkRemoved(s, BatchOf(xs)).ended == s.ended - Uuids(xs)
  {
    BatchUuids(xs);
  }

  /** A stray line is taken by the grouped deletion only. */
  lemma StrayLineDiffers(s: Store, xs: seq<Session>, x: Session)
    requires x in xs && x.conn.userId == 0 && Entry(ServerLines(x.conn.serverId), x.uuid) in s.z && !HasUserTwin(xs, x)
    ensures BulkRemoved(s, BatchOf(xs)) != RemovedEach(s, xs)
  {
    var e := Entry(ServerLines(x.conn.serverId), x.uuid);
    BulkMeans(s, xs, e);
    EachMeans(s, xs, e);
    StrayLineNames(xs, x);
  }

  lemma StrayLineNames(xs: seq<Session>, x: Session)
    requires x in xs && x.conn.userId == 0 && !HasUserTwin(xs, x)
    ensures var e := Entry(ServerLines(x.conn.serverId), x.uuid); BulkNames(xs, e) && !EachNames(xs, e)
  {
    var e := Entry(ServerLines(x.conn.serverId), x.uuid);
    assert BulkHits(e.key, x.conn);
    forall y | y in xs && y.uuid == e.uuid ensures e.key !in AllKeys(y.conn) {
      assert e.key in AllKeys(y.conn) <==> y.conn.userId != 0 && y.conn.serverId == x.conn.serverId;
    }
  }

  /** One grouped deletion is the same as removing its sessions one by one if and only if there is no stray line. */
  lemma BulkIsEachIff(s: Store, xs: seq<Session>)
    ensures BulkRemoved(s, BatchOf(xs)) == RemovedEach(s, xs) <==> NoStrayLines(s, xs)
  {
    if NoStrayLines(s, xs) {
      BulkRecords(s, xs);
      EachMeans(s, xs, Entry(Live, ""));
      var a, b := BulkRemoved(s, BatchOf(xs)).z, RemovedEach(s, xs).z;
      forall e: Entry ensures e in a <==> e in b ensures e in a ==> a[e] == b[e] {
        BulkMeans(s, xs, e);
        EachMeans(s, xs, e);
        if e in s.z { BulkIsEachAt(s, xs, e); }
      }
      assert a == b;
    } else {
      var x :| x in xs && x.conn.userId == 0 && Entry(ServerLines(x.conn.serverId), x.uuid) in s.z
               && !HasUserTwin(xs, x);
      StrayLineDiffers(s, xs, x);
    }
  }

  lemma {:induction false} EachOfTwo(s: Store, xs: seq<Session>, ys: seq<Session>)
    ensures RemovedEach(s, xs + ys) == RemovedEach(RemovedEach(s, xs), ys)
  {
    if ys == [] {
      assert xs + ys == xs;
    } else {
      assert (xs + ys)[..|xs + ys| - 1] == xs + ys[..|ys| - 1];
      EachOfTwo(s, xs, ys[..|ys| - 1]);
    }
  }

  lemma SparedTwice(s: Store, t: Store, u: Store, r: Store, xs: seq<Session>, ys: seq<Session>, e: Entry)
    requires Spares(s, t, xs, e) && Spares(t, u, ys, e) && Spares(s, r, xs + ys, e)
    ensures (e in u.z <==> e in r.z) && (e in u.z ==> u.z[e] == r.z[e])
  {
    NamesOfTwo(xs, ys, e);
  }

  lemma NamesOfTwo(xs: seq<Session>, ys: seq<Session>, e: Entry)
    ensures BulkNames(xs + ys, e) <==> BulkNames(xs, e) || BulkNames(ys, e)
  {
    assert forall x :: x in xs + ys <==> x in xs || x in ys;
  }

  /** t is s without the sessions xs and without the entries their batch names. */
  ghost predicate LeftBy(s: Store, t: Store, xs: seq<Session>) {
    (forall e: Entry :: Spares(s, t, xs, e)) && t.recs == s.recs - Uuids(xs) && t.ended == s.ended - Uuids(xs)
  }

  lemma BulkLeaves(s: Store, xs: seq<Session>)
    ensures LeftBy(s, BulkRemoved(s, BatchOf(xs)), xs)
  {
    forall e: Entry { BulkMeans(s, xs, e); }
    BulkRecords(s, xs);
  }

  lemma LeftByTwo(s: Store, t: Store, u: Store, r: Store, xs: seq<Session>, ys: seq<Session>)
    requires LeftBy(s, t, xs) && LeftBy(t, u, ys) && LeftBy(s, r, xs + ys)
    ensures u == r
  {
    forall e: Entry ensures e in u.z <==> e in r.z ensures e in u.z ==> u.z[e] == r.z[e] {
      SparedTwice(s, t, u, r, xs, ys, e);
    }
    assert u.z == r.z;
    assert Uuids(xs + ys) == Uuids(xs) + Uuids(ys);
  }

  /** Two grouped deletions in a row are one. */
  lemma BulkOfTwo(s: Store, xs: seq<Session>, ys: seq<Session>)
    ensures BulkRemoved(BulkRemoved(s, BatchOf(xs)), BatchOf(ys)) == BulkRemoved(s, BatchOf(xs + ys))
  {
    var t, r := BulkRemoved(s, BatchOf(xs)), BulkRemoved(s, BatchOf(xs + ys));
    BulkLeaves(s, xs);
    BulkLeaves(t, ys);
    BulkLeaves(s, xs + ys);
    LeftByTwo(s, t, BulkRemoved(t, BatchOf(ys)), r, xs, ys);
  }

  /** So it makes no difference at which points the accumulator is flushed. */
  lemma {:induction false} ChunksAreOne(s: Store, chunks: seq<seq<Session>>)
    ensures BulkRemovedAll(s, chunks) == BulkRemoved(s, BatchOf(Flat(chunks)))
  {
    if chunks != [] {
      var before, last := chunks[..|chunks| - 1], chunks[|chunks| - 1];
      ChunksAreOne(s, before);
      BulkOfTwo(s, Flat(before), last);
    }
  }

  /**
  Flushing the accumulator at any points gives the store that single removals give, if and only if there is no
  stray line.
  */
  lemma ChunkedBulkIsEachIff(s: Store, chunks: seq<seq<Session>>)
    ensures BulkRemovedAll(s, chunks) == RemovedEach(s, Flat(chunks)) <==> NoStrayLines(s, Flat(chunks))
  {
    ChunksAreOne(s, chunks);
    BulkIsEachIff(s, Flat(chunks));
  }

  /** For one session the condition is that it has a user or is not listed. */
  lemma BulkOfOneIff(s: Store, x: Session)
    ensures BulkRemoved(s, BatchOf([x])) == Removed(s, x.uuid, x.conn)
       <==> (x.conn.userId == 0 ==> Entry(ServerLines(x.conn.serverId), x.uuid) !in s.z)
  {
    assert [x][..0] == [];
    assert RemovedEach(s, [x]) == Removed(s, x.uuid, x.conn);
    BulkIsEachIff(s, [x]);
    assert x in [x];
  }

  lemma ConsistentHasNoStrayLines(s: Store, xs: seq<Session>)
    requires Consistent(s)
    requires forall x :: x in xs && x.uuid in s.recs ==> s.recs[x.uuid].userId == x.conn.userId
    ensures forall x :: x in xs && x.conn.userId == 0 ==> Entry(ServerLines(x.conn.serverId), x.uuid) !in s.z
    ensures NoStrayLines(s, xs)
  {
    forall x | x in xs && x.conn.userId == 0 ensures Entry(ServerLines(x.conn.serverId), x.uuid) !in s.z {
      assert Exact(s, Entry(ServerLines(x.conn.serverId), x.uuid));
    }
  }

  lemma BulkEntry(s: Store, xs: seq<Session>, e: Entry)
    requires xs != [] && forall x :: x in xs ==> x.uuid in s.recs && x.conn == s.recs[x.uuid]
    ensures Exact(s, e) ==> Exact(BulkRemoved(s, BatchOf(xs)), e)
    ensures NearlyExact(s, e) ==> NearlyExact(BulkRemoved(s, BatchOf(xs)), e)
  {
    BatchMeans(xs, e);
    BatchUuids(xs);
    if e.uuid in Uuids(xs) {
      var x :| x in xs && x.uuid == e.uuid;
      assert Listed(e.key, x.conn) ==> BulkHits(e.key, x.conn);
    }
  }

  lemma BulkKeeps(s: Store, xs: seq<Session>)
    requires forall x :: x in xs ==> x.uuid in s.recs && x.conn == s.recs[x.uuid]
    ensures Consistent(s) ==> Consistent(BulkRemoved(s, BatchOf(xs)))
    ensures WeaklyConsistent(s) ==> WeaklyConsistent(BulkRemoved(s, BatchOf(xs)))
  {
    BatchUuids(xs);
    if xs != [] {
      forall e: Entry { BulkEntry(s, xs, e); }
    }
  }

  /** How many of the sessions are this one on this server. */
  function Times(xs: seq<Session>, n: Notice): nat {
    if xs == [] then 0
    else Times(xs[..|xs| - 1], n) + (if n == Notice(xs[|xs| - 1].conn.serverId, xs[|xs| - 1].uuid) then 1 else 0)
  }

  lemma QueuedIsAnnounced(server: map<int, seq<Uuid>>, i: int, u: Uuid, self: int, n: Notice)
    ensures Announced(Pushed(server, i, u), self, n)
         == Announced(server, self, n) + if n.server != self && n == Notice(i, u) then 1 else 0
  {
    var queued := if i in server then server[i] else [];
    assert Pushed(server, i, u)[i] == queued + [u];
    assert multiset(queued + [u]) == multiset(queued) + multiset{u};
  }

  /** Every queued session of another server is announced to that server, exactly as often as it is queued. */
  lemma {:induction false} EachIsAnnounced(xs: seq<Session>, self: int, n: Notice)
    ensures Announced(BatchOf(xs).server, self, n) == if n.server == self then 0 else Times(xs, n)
  {
    if xs != [] {
      var before, last := xs[..|xs| - 1], xs[|xs| - 1];
      EachIsAnnounced(before, self, n);
      QueuedIsAnnounced(BatchOf(before).server, last.conn.serverId, last.uuid, self, n);
    }
  }

  // ---------------------------------------------------------------- whole runs

  lemma StepKeeps(s: Store, st: Step)
    requires Enabled(s, st)
    ensures Consistent(s) && !MovesLiveSession(s, st) ==> Consistent(Apply(s, st))
    ensures WeaklyConsistent(s) ==> WeaklyConsistent(Apply(s, st))
  {
    match st
    case DoCreate(u, c) => CreateKeeps(s, u, c);
    case DoUpdate(u, ch, mode) => UpdateKeeps(s, u, ch, mode);
    case DoRemove(u) => RemoveKeeps(s, u);
    case DoBulk(us) => BulkKeeps(s, Sessions(s, us));
    case DoResync(rows) => ResyncKeeps(s, rows);
  }

  /** A run that never moves a live session ends with every index equal to what the records define. */
  lemma {:induction false} RunKeepsConsistency(s: Store, run: seq<Step>)
    requires Consistent(s) && Runnable(s, run) && NeverMoves(s, run)
    ensures Consistent(Final(s, run))
    decreases |run|
  {
    if run != [] {
      StepKeeps(s, run[0]);
      RunKeepsConsistency(Apply(s, run[0]), run[1..]);
    }
  }

  /** No run at all can spoil the six indexes that are not per server, or lose an open session from SERVER#. */
  lemma {:induction false} EveryRunKeepsWeakConsistency(s: Store, run: seq<Step>)
    requires WeaklyConsistent(s) && Runnable(s, run)
    ensures WeaklyConsistent(Final(s, run))
    decreases |run|
  {
    if run != [] {
      StepKeeps(s, run[0]);
      EveryRunKeepsWeakConsistency(Apply(s, run[0]), run[1..]);
    }
  }

  lemma FromEmpty(run: seq<Step>)
    requires Runnable(EMPTY, run)
    ensures WeaklyConsistent(Final(EMPTY, run))
    ensures NeverMoves(EMPTY, run) ==> Consistent(Final(EMPTY, run))
  {
    EveryRunKeepsWeakConsistency(EMPTY, run);
    if NeverMoves(EMPTY, run) { RunKeepsConsistency(EMPTY, run); }
  }

  // ---------------------------------------------------------------- opening a live session on another server

  /** The entries that still name the server a session has left. */
  predicate Stale(u: Uuid, was: Conn, e: Entry) {
    e == Entry(Server(was.serverId), u) || (was.userId != 0 && e == Entry(ServerLines(was.serverId), u))
  }

  /** What a move from the store s makes of one entry: t lists it as the records say, but for the session moved. */
  predicate AsMoved(t: Store, u: Uuid, was: Conn, e: Entry)
    requires u in t.recs
  {
    && (e in t.z <==> (Wanted(t.recs, e) && e != Entry(ServerLines(t.recs[u].serverId), u)) || Stale(u, was, e))
    && (e in t.z ==> e.uuid in t.recs && t.z[e] == Score(e.key, t.recs[e.uuid]))
  }

  lemma MovedEntry(s: Store, u: Uuid, ch: Changes, e: Entry)
    requires Exact(s, e) && Enabled(s, DoUpdate(u, ch, Open)) && MovesLiveSession(s, DoUpdate(u, ch, Open))
    ensures AsMoved(Updated(s, u, s.recs[u], ch, Open), u, s.recs[u], e)
  {
    assert e == Entry(e.key, e.uuid);
  }

  lemma RemovedAfterMove(t: Store, u: Uuid, was: Conn, e: Entry)
    requires u in t.recs && AsMoved(t, u, was, e) && !t.recs[u].ended && t.recs[u].serverId != was.serverId
    ensures var r := Removed(t, u, t.recs[u]); e in r.z <==> (Wanted(r.recs, e) || Stale(u, was, e))
  {
    DroppedEntry(t.z, AllKeys(t.recs[u]), u, e);
  }

  /**
  Moving a live session leaves exactly its old SERVER# and SERVER_LINES# entries behind, lacks exactly its new
  SERVER_LINES# entry and touches nothing else.
  */
  lemma MovedSession(s: Store, u: Uuid, ch: Changes)
    requires Consistent(s) && Enabled(s, DoUpdate(u, ch, Open)) && MovesLiveSession(s, DoUpdate(u, ch, Open))
    ensures var t := Updated(s, u, s.recs[u], ch, Open);
            (forall e: Entry :: AsMoved(t, u, s.recs[u], e)) && EndedExact(t) && !Consistent(t)
  {
    var t := Updated(s, u, s.recs[u], ch, Open);
    forall e: Entry ensures AsMoved(t, u, s.recs[u], e) {
      assert Exact(s, e);
      MovedEntry(s, u, ch, e);
    }
    var left := Entry(Server(s.recs[u].serverId), u);
    assert AsMoved(t, u, s.recs[u], left) && !Exact(t, left);
  }

  /** So a step keeps consistency if and only if it moves no live session. */
  lemma StepKeepsConsistencyIff(s: Store, st: Step)
    requires Consistent(s) && Enabled(s, st)
    ensures Consistent(Apply(s, st)) <==> !MovesLiveSession(s, st)
  {
    StepKeeps(s, st);
    if MovesLiveSession(s, st) { MovedSession(s, st.uuid, st.changes); }
  }

  /** The stale entries outlive the session: removing it later leaves them as members without a record. */
  lemma MovedSessionLeaks(s: Store, u: Uuid, ch: Changes)
    requires Consistent(s) && Enabled(s, DoUpdate(u, ch, Open)) && MovesLiveSession(s, DoUpdate(u, ch, Open))
    ensures var t := Updated(s, u, s.recs[u], ch, Open);
            var r := Removed(t, u, t.recs[u]);
            u !in r.recs && forall e: Entry :: e in r.z <==> (Wanted(r.recs, e) || Stale(u, s.recs[u], e))
  {
    MovedSession(s, u, ch);
    var t := Updated(s, u, s.recs[u], ch, Open);
    forall e: Entry { RemovedAfterMove(t, u, s.recs[u], e); }
  }
}
