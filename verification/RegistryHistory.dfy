/**
What exactly the per-server indexes hold after any run, live sessions that change server included.  The account is kept
along the run from the records alone, without ever looking at an index.
*/
module RegistryHistory {
  import opened ConnectionRegistry
  import opened RegistryLaws

  // stale: entries of a server a session has left; lacking: live sessions that their own server's lines do not list.
  datatype Traces = Traces(stale: set<Entry>, lacking: set<Uuid>)

  const NO_TRACES := Traces({}, {})

  function ServerKeys(c: Conn): set<Key> { {Server(c.serverId)} + UserKeys(c) }

  function Off(stale: set<Entry>, ks: set<Key>, u: Uuid): set<Entry> { stale - set k | k in ks :: Entry(k, u) }

  /** The session is listed afresh, or goes: what names its server is no longer stale. */
  function Settled(t: Traces, u: Uuid, c: Conn): Traces { Traces(Off(t.stale, ServerKeys(c), u), t.lacking - {u}) }

  /**
  A live session goes from the server of c to that of d.  It leaves behind what listed it; and it lacks its new line
  unless an old one waits for it there.
  */
  function MovedAway(t: Traces, u: Uuid, c: Conn, d: Conn): Traces {
    var line := if c.userId != 0 && u !in t.lacking then {Entry(ServerLines(c.serverId), u)} else {};
    var back := Entry(ServerLines(d.serverId), u) in t.stale;
    Traces(Off(t.stale + {Entry(Server(c.serverId), u)} + line, ServerKeys(d), u),
           if d.userId != 0 && !back then t.lacking + {u} else t.lacking - {u})
  }

  function AfterUpdate(t: Traces, u: Uuid, c: Conn, ch: Changes, mode: Mode): Traces {
    var d := Changed(c, ch);
    match mode
    case Open => if c.ended then Settled(t, u, d) else if d.serverId != c.serverId then MovedAway(t, u, c, d) else t
    case Close => Traces(Off(t.stale, if c.ended then {Server(c.serverId)} else ServerKeys(c), u), t.lacking - {u})
    case Touch => t
  }

  function AfterBulk(t: Traces, recs: map<Uuid, Conn>, us: seq<Uuid>): Traces
    requires forall u :: u in us ==> u in recs
  {
    var kept := set e | e in t.stale && !(e.uuid in us && BulkHits(e.key, recs[e.uuid]));
    Traces(kept, t.lacking - set u | u in us)
  }

  function AfterResync(t: Traces, rows: seq<Row>): Traces {
    if rows == [] then t
    else Settled(AfterResync(t, rows[..|rows| - 1]), rows[|rows| - 1].uuid, RowConn(rows[|rows| - 1]))
  }

  function After(s: Store, t: Traces, st: Step): Traces
    requires Enabled(s, st)
  {
    match st
    case DoCreate(u, c) => Settled(t, u, c)
    case DoUpdate(u, ch, mode) => AfterUpdate(t, u, s.recs[u], ch, mode)
    case DoRemove(u) => Settled(t, u, s.recs[u])
    case DoBulk(us) => AfterBulk(t, s.recs, us)
    case DoResync(rows) => AfterResync(t, rows)
  }

  function AfterRun(s: Store, t: Traces, run: seq<Step>): Traces
    requires Runnable(s, run)
    decreases |run|
  {
    if run == [] then t else AfterRun(Apply(s, run[0]), After(s, t, run[0]), run[1..])
  }

  // ---------------------------------------------------------------- the account

  /**
  An index lists what the records say, minus what is lacking, plus what is stale; and nothing stale is also
  wanted.
  */
  predicate Accounted(s: Store, t: Traces, e: Entry) {
    && (e in s.z <==> (Wanted(s.recs, e) && !(e.key.ServerLines? && e.uuid in t.lacking)) || e in t.stale)
    && (e in t.stale ==> !Wanted(s.recs, e) && (e.key.Server? || e.key.ServerLines?))
  }

  /** Some server that the session has left still lists it. */
  ghost predicate LeftSome(t: Traces, u: Uuid) { exists i :: Entry(Server(i), u) in t.stale }

  /**
  What is listed and not stale has the right score; but an old line may have waited with the score of an earlier user of
  the same uuid for a session to come back, and that session has left a server that still lists it.
  */
  ghost predicate WellScored(s: Store, t: Traces, e: Entry) {
    e in s.z && e !in t.stale ==>
      e.uuid in s.recs && (s.z[e] == Score(e.key, s.recs[e.uuid]) || (e.key.ServerLines? && LeftSome(t, e.uuid)))
  }

  /** Only live sessions of a user can be lacking. */
  predicate LackingOk(s: Store, t: Traces) {
    forall u :: u in t.lacking ==> u in s.recs && !s.recs[u].ended && s.recs[u].userId != 0
  }

  ghost predicate Account(s: Store, t: Traces) {
    (forall e: Entry :: Accounted(s, t, e) && WellScored(s, t, e)) && LackingOk(s, t)
  }

  lemma CreatedAccount(s: Store, t: Traces, u: Uuid, c: Conn, e: Entry)
    requires u !in s.recs && !c.ended && Accounted(s, t, e) && LackingOk(s, t)
    ensures Accounted(Created(s, u, c), Settled(t, u, c), e)
  {
    assert e == Entry(e.key, e.uuid);
  }

  lemma RemovedAccount(s: Store, t: Traces, u: Uuid, e: Entry)
    requires u in s.recs && Accounted(s, t, e)
    ensures Accounted(Removed(s, u, s.recs[u]), Settled(t, u, s.recs[u]), e)
  {
    assert e == Entry(e.key, e.uuid);
  }

  lemma ReopenedAccount(s: Store, t: Traces, u: Uuid, ch: Changes, e: Entry)
    requires u in s.recs && s.recs[u].ended && Accounted(s, t, e)
    ensures Accounted(Updated(s, u, s.recs[u], ch, Open), Settled(t, u, Changed(s.recs[u], ch)), e)
  {
    assert e == Entry(e.key, e.uuid);
  }

  lemma KeptOpenAccount(s: Store, t: Traces, u: Uuid, ch: Changes, e: Entry)
    requires u in s.recs && !s.recs[u].ended && Changed(s.recs[u], ch).serverId == s.recs[u].serverId
             && Accounted(s, t, e)
    ensures Accounted(Updated(s, u, s.recs[u], ch, Open), t, e)
  {
    assert e == Entry(e.key, e.uuid);
  }

  lemma MovedAccount(s: Store, t: Traces, u: Uuid, ch: Changes, e: Entry)
    requires u in s.recs && !s.recs[u].ended && Changed(s.recs[u], ch).serverId != s.recs[u].serverId
    requires Accounted(s, t, e)
    ensures Accounted(Updated(s, u, s.recs[u], ch, Open), MovedAway(t, u, s.recs[u], Changed(s.recs[u], ch)), e)
  {
    assert e == Entry(e.key, e.uuid);
  }

  lemma ClosedAccount(s: Store, t: Traces, u: Uuid, ch: Changes, e: Entry)
    requires u in s.recs && Accounted(s, t, e)
    ensures Accounted(Updated(s, u, s.recs[u], ch, Close), AfterUpdate(t, u, s.recs[u], ch, Close), e)
  {
    assert e == Entry(e.key, e.uuid);
  }

  lemma TouchedAccount(s: Store, t: Traces, u: Uuid, ch: Changes, e: Entry)
    requires u in s.recs && ch.serverId.None? && Accounted(s, t, e)
    ensures Accounted(Updated(s, u, s.recs[u], ch, Touch), t, e)
  {
  }

  // ---------------------------------------------------------------- the scores

  /** Only entries of the session itself can cease to be stale when it settles somewhere or goes. */
  lemma OthersStayStale(stale: set<Entry>, ks: set<Key>, u: Uuid, e: Entry)
    requires e.uuid != u
    ensures e in Off(stale, ks, u) <==> e in stale
  {
  }

  /** Nothing but the update itself touches scores, so an entry of another session keeps its own. */
  lemma OthersStayScored(s: Store, t: Traces, s2: Store, t2: Traces, e: Entry)
    requires WellScored(s, t, e)
    requires e in s2.z ==> e in s.z && s2.z[e] == s.z[e]
    requires e.uuid in s.recs ==> e.uuid in s2.recs && s2.recs[e.uuid] == s.recs[e.uuid]
    requires forall k :: Entry(k, e.uuid) in t.stale <==> Entry(k, e.uuid) in t2.stale
    ensures WellScored(s2, t2, e)
  {
    assert e == Entry(e.key, e.uuid);
    if LeftSome(t, e.uuid) {
      var i :| Entry(Server(i), e.uuid) in t.stale;
      assert Entry(Server(i), e.uuid) in t2.stale;
    }
  }

  lemma CreatedScores(s: Store, t: Traces, u: Uuid, c: Conn, e: Entry)
    requires u !in s.recs && WellScored(s, t, e)
    ensures WellScored(Created(s, u, c), Settled(t, u, c), e)
  {
    assert e == Entry(e.key, e.uuid);
    if e.uuid != u {
      forall k { OthersStayStale(t.stale, ServerKeys(c), u, Entry(k, e.uuid)); }
      OthersStayScored(s, t, Created(s, u, c), Settled(t, u, c), e);
    }
  }

  lemma RemovedScores(s: Store, t: Traces, u: Uuid, e: Entry)
    requires u in s.recs && Accounted(s, t, e) && WellScored(s, t, e)
    ensures WellScored(Removed(s, u, s.recs[u]), Settled(t, u, s.recs[u]), e)
  {
    if e.uuid != u {
      forall k { OthersStayStale(t.stale, ServerKeys(s.recs[u]), u, Entry(k, e.uuid)); }
      OthersStayScored(s, t, Removed(s, u, s.recs[u]), Settled(t, u, s.recs[u]), e);
    } else {
      RemovedAccount(s, t, u, e);
    }
  }

  lemma ChangedScore(c: Conn, ch: Changes, ended: bool, k: Key)
    ensures Score(k, Changed(c, ch).(ended := ended)) == Score(k, c)
  {
  }

  /** An update of the session itself. */
  lemma UpdatedScores(s: Store, t: Traces, u: Uuid, ch: Changes, mode: Mode, e: Entry)
    requires Enabled(s, DoUpdate(u, ch, mode)) && Accounted(s, t, e) && WellScored(s, t, e) && e.uuid == u
    requires var c := s.recs[u]; Accounted(Updated(s, u, c, ch, mode), AfterUpdate(t, u, c, ch, mode), e)
    ensures var c := s.recs[u]; WellScored(Updated(s, u, c, ch, mode), AfterUpdate(t, u, c, ch, mode), e)
  {
    var c, d := s.recs[u], Changed(s.recs[u], ch);
    ChangedScore(c, ch, false, e.key);
    ChangedScore(c, ch, true, e.key);
    assert e == Entry(e.key, e.uuid);
    match mode
    case Open =>
      if !c.ended && d.serverId != c.serverId {
        var left := Entry(Server(c.serverId), u);
        assert left in MovedAway(t, u, c, d).stale;
        assert LeftSome(MovedAway(t, u, c, d), u);
      }
    case Close =>
    case Touch =>
  }

  lemma OtherUpdated(s: Store, t: Traces, u: Uuid, ch: Changes, mode: Mode, e: Entry)
    requires Enabled(s, DoUpdate(u, ch, mode)) && WellScored(s, t, e) && e.uuid != u
    ensures var c := s.recs[u]; WellScored(Updated(s, u, c, ch, mode), AfterUpdate(t, u, c, ch, mode), e)
  {
    var c := s.recs[u];
    assert e == Entry(e.key, e.uuid);
    OthersStayScored(s, t, Updated(s, u, c, ch, mode), AfterUpdate(t, u, c, ch, mode), e);
  }

  // ---------------------------------------------------------------- every step and every run

  lemma UpdateAccount(s: Store, t: Traces, u: Uuid, ch: Changes, mode: Mode)
    requires Account(s, t) && Enabled(s, DoUpdate(u, ch, mode))
    ensures Account(Updated(s, u, s.recs[u], ch, mode), AfterUpdate(t, u, s.recs[u], ch, mode))
  {
    var c, d := s.recs[u], Changed(s.recs[u], ch);
    var r, after := Updated(s, u, c, ch, mode), AfterUpdate(t, u, c, ch, mode);
    forall e: Entry ensures Accounted(r, after, e) {
      match mode
      case Open =>
        if c.ended { ReopenedAccount(s, t, u, ch, e); }
        else if d.serverId != c.serverId { MovedAccount(s, t, u, ch, e); }
        else { KeptOpenAccount(s, t, u, ch, e); }
      case Close => ClosedAccount(s, t, u, ch, e);
      case Touch => TouchedAccount(s, t, u, ch, e);
    }
    forall e: Entry ensures WellScored(r, after, e) {
      if e.uuid == u { UpdatedScores(s, t, u, ch, mode, e); } else { OtherUpdated(s, t, u, ch, mode, e); }
    }
  }

  lemma CreateAccount(s: Store, t: Traces, u: Uuid, c: Conn)
    requires Account(s, t) && u !in s.recs && !c.ended
    ensures Account(Created(s, u, c), Settled(t, u, c))
  {
    forall e: Entry { CreatedAccount(s, t, u, c, e); }
    forall e: Entry { CreatedScores(s, t, u, c, e); }
  }

  lemma {:induction false} ResyncAccount(s: Store, t: Traces, rows: seq<Row>)
    requires Account(s, t) && Enabled(s, DoResync(rows))
    ensures Account(Resynced(s, rows), AfterResync(t, rows))
  {
    if rows != [] {
      var before, last := rows[..|rows| - 1], rows[|rows| - 1];
      assert rows == before + [last];
      ResyncAccount(s, t, before);
      ResyncKeeps(s, before);
      CreateAccount(Resynced(s, before), AfterResync(t, before), last.uuid, RowConn(last));
    }
  }

  lemma BulkNamesRecord(s: Store, us: seq<Uuid>, e: Entry)
    requires forall u :: u in us ==> u in s.recs
    ensures BulkNames(Sessions(s, us), e) <==> e.uuid in us && BulkHits(e.key, s.recs[e.uuid])
    ensures Uuids(Sessions(s, us)) == set u | u in us
  {
    var xs := Sessions(s, us);
    forall u | u in us ensures Session(u, s.recs[u]) in xs {
      var i :| 0 <= i < |us| && us[i] == u;
      assert xs[i] == Session(u, s.recs[u]);
    }
    assert forall x :: x in xs ==> x.uuid in us && x.conn == s.recs[x.uuid];
  }

  lemma BulkAccount(s: Store, t: Traces, us: seq<Uuid>)
    requires Account(s, t) && Enabled(s, DoBulk(us))
    ensures Account(BulkRemoved(s, BatchOf(Sessions(s, us))), AfterBulk(t, s.recs, us))
  {
    var xs := Sessions(s, us);
    var r := BulkRemoved(s, BatchOf(xs));
    BulkLeaves(s, xs);
    forall e: Entry ensures Accounted(r, AfterBulk(t, s.recs, us), e) {
      assert Accounted(s, t, e) && Spares(s, r, xs, e);
      BulkNamesRecord(s, us, e);
      assert e.uuid in us && Wanted(s.recs, e) ==> BulkHits(e.key, s.recs[e.uuid]);
    }
    BulkNamesRecord(s, us, Entry(Live, ""));
    forall e: Entry ensures WellScored(r, AfterBulk(t, s.recs, us), e) {
      assert Accounted(s, t, e) && WellScored(s, t, e) && Spares(s, r, xs, e);
      assert Accounted(r, AfterBulk(t, s.recs, us), e);
      if e.uuid !in us {
        OthersStayScored(s, t, r, AfterBulk(t, s.recs, us), e);
      }
    }
  }

  lemma RemoveAccount(s: Store, t: Traces, u: Uuid)
    requires Account(s, t) && u in s.recs
    ensures Account(Removed(s, u, s.recs[u]), Settled(t, u, s.recs[u]))
  {
    forall e: Entry { RemovedAccount(s, t, u, e); }
    forall e: Entry { RemovedScores(s, t, u, e); }
  }

  lemma StepAccount(s: Store, t: Traces, st: Step)
    requires Account(s, t) && Enabled(s, st)
    ensures Account(Apply(s, st), After(s, t, st))
  {
    match st
    case DoCreate(u, c) => CreateAccount(s, t, u, c);
    case DoUpdate(u, ch, mode) => UpdateAccount(s, t, u, ch, mode);
    case DoRemove(u) => RemoveAccount(s, t, u);
    case DoBulk(us) => BulkAccount(s, t, us);
    case DoResync(rows) => ResyncAccount(s, t, rows);
  }

  lemma {:induction false} RunAccount(s: Store, t: Traces, run: seq<Step>)
    requires Account(s, t) && Runnable(s, run)
    ensures Account(Final(s, run), AfterRun(s, t, run))
    decreases |run|
  {
    if run != [] {
      StepAccount(s, t, run[0]);
      RunAccount(Apply(s, run[0]), After(s, t, run[0]), run[1..]);
    }
  }

  /** Every index lists exactly what the records say. */
  ghost predicate ListsTrue(s: Store) { forall e: Entry :: e in s.z <==> Wanted(s.recs, e) }

  lemma ListsTrueIff(s: Store, t: Traces)
    requires Account(s, t)
    ensures ListsTrue(s) <==> t == NO_TRACES
  {
    if ListsTrue(s) {
      forall e: Entry ensures e !in t.stale {
        assert Accounted(s, t, e) && (e in s.z <==> Wanted(s.recs, e));
      }
      forall u: Uuid ensures u !in t.lacking {
        var server := if u in s.recs then s.recs[u].serverId else 0;
        var e := Entry(ServerLines(server), u);
        assert Accounted(s, t, e) && (e in s.z <==> Wanted(s.recs, e));
      }
      assert t.stale == {} && t.lacking == {};
    } else {
      var e: Entry :| !(e in s.z <==> Wanted(s.recs, e));
      assert Accounted(s, t, e);
    }
  }

  /** The indexes are right, scores included, if and only if no trace is left. */
  lemma ConsistentIff(s: Store, t: Traces)
    requires Account(s, t) && EndedExact(s)
    ensures Consistent(s) <==> t == NO_TRACES
  {
    if Consistent(s) {
      forall e: Entry ensures e in s.z <==> Wanted(s.recs, e) { assert Exact(s, e); }
    }
    ListsTrueIff(s, t);
    if t == NO_TRACES {
      forall e: Entry ensures Exact(s, e) { assert Accounted(s, t, e) && WellScored(s, t, e); }
    }
  }

  /**
  For every run whatever: the indexes list exactly what the records say, minus what the history says is lacking, plus
  what it says is stale.  So after a run they are exact, scores included, if and only if no trace of a move is left.
  */
  lemma EveryRunIsAccounted(run: seq<Step>)
    requires Runnable(EMPTY, run)
    ensures Account(Final(EMPTY, run), AfterRun(EMPTY, NO_TRACES, run))
    ensures Consistent(Final(EMPTY, run)) <==> AfterRun(EMPTY, NO_TRACES, run) == NO_TRACES
  {
    RunAccount(EMPTY, NO_TRACES, run);
    FromEmpty(run);
    ConsistentIff(Final(EMPTY, run), AfterRun(EMPTY, NO_TRACES, run));
  }
}
