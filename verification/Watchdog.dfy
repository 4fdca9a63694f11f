/** The main server's watchdog: it turns index reads into per-server and global counts. */
module Watchdog {
  import opened Collections
  import opened ConnectionRegistry

  datatype Server = ServerRow(id: int, online: bool)
  datatype Counts = Counts(serverId: int, connections: nat, users: nat)

  // What one pipelined read answers.
  datatype Reply = Card(n: nat) | Scores(m: map<Uuid, int>)

  function Members(z: map<Entry, int>, k: Key): set<Uuid> {
    set e | e in z && e.key == k :: e.uuid
  }

  function WithScores(z: map<Entry, int>, k: Key): map<Uuid, int> {
    map u | u in Members(z, k) :: z[Entry(k, u)]
  }

  function Online(servers: seq<Server>): seq<int> {
    if servers == [] then []
    else Online(servers[..|servers| - 1]) + (if servers[|servers| - 1].online then [servers[|servers| - 1].id] else [])
  }

  /** The sessions open on a server and the users that own them, straight from the records. */
  function OpenOn(recs: map<Uuid, Conn>, id: int): set<Uuid> {
    set u | u in recs && !recs[u].ended && recs[u].serverId == id
  }

  function UsersOn(recs: map<Uuid, Conn>, id: int): set<int> {
    set u | u in recs && !recs[u].ended && recs[u].serverId == id && recs[u].userId != 0 :: recs[u].userId
  }

  /** The distinct user ids that the index SERVER_LINES# of a server scores. */
  function Scored(z: map<Entry, int>, id: int): set<int> { WithScores(z, ServerLines(id)).Values }

  function UnionOf(users: int -> set<int>, ids: seq<int>): set<int> {
    if ids == [] then {} else users(ids[|ids| - 1]) + UnionOf(users, ids[..|ids| - 1])
  }

  function ScoredOnAny(z: map<Entry, int>, ids: seq<int>): set<int> { UnionOf(id => Scored(z, id), ids) }

  /** What the indexes say about one server. */
  function IndexCounts(z: map<Entry, int>, id: int): Counts {
    Counts(id, |Members(z, ConnectionRegistry.Server(id))|, |Scored(z, id)|)
  }

  predicate Answers(replies: seq<Reply>, j: nat, z: map<Entry, int>, id: int) {
    && 2 * j + 1 < |replies|
    && replies[2 * j].Card? && replies[2 * j].n == IndexCounts(z, id).connections
    && replies[2 * j + 1].Scores? && replies[2 * j + 1].m.Values == Scored(z, id)
  }

  /** The first loop: queue two reads for every server that is online. */
  method FetchReplies(z: map<Entry, int>, servers: seq<Server>) returns (replies: seq<Reply>)
    ensures |replies| == 2 * |Online(servers)|
    ensures forall j :: 0 <= j < |Online(servers)| ==> Answers(replies, j, z, Online(servers)[j])
  {
    replies := [];
    for s := 0 to |servers|
      invariant |replies| == 2 * |Online(servers[..s])|
      invariant forall j :: 0 <= j < |Online(servers[..s])| ==> Answers(replies, j, z, Online(servers[..s])[j])
    {
      assert servers[..s + 1][..s] == servers[..s];
      if servers[s].online {
        replies := replies + [Card(|Members(z, ConnectionRegistry.Server(servers[s].id))|),
                              Scores(WithScores(z, ServerLines(servers[s].id)))];
      }
    }
    assert servers[..|servers|] == servers;
  }

  predicate IsPair(replies: seq<Reply>, j: nat) {
    2 * j + 1 < |replies| && replies[2 * j].Card? && replies[2 * j + 1].Scores?
  }

  function CardOf(replies: seq<Reply>, j: nat): nat { if IsPair(replies, j) then replies[2 * j].n else 0 }

  function UsersOf(replies: seq<Reply>, j: nat): set<int> {
    if IsPair(replies, j) then replies[2 * j + 1].m.Values else {}
  }

  function UsersUpTo(replies: seq<Reply>, n: nat): set<int> {
    if n == 0 then {} else UsersOf(replies, n - 1) + UsersUpTo(replies, n - 1)
  }

  function RowOf(replies: seq<Reply>, ids: seq<int>, j: nat): Counts
    requires j < |ids|
  {
    Counts(ids[j], CardOf(replies, j), |UsersOf(replies, j)|)
  }

  function RowsUpTo(replies: seq<Reply>, ids: seq<int>, n: nat): seq<Counts>
    requires n <= |ids|
  {
    if n == 0 then []
    else RowsUpTo(replies, ids, n - 1) + [RowOf(replies, ids, n - 1)]
  }

  method ReadPair(replies: seq<Reply>, i: nat) returns (card: nat, users: set<int>)
    requires IsPair(replies, i)
    ensures card == CardOf(replies, i) && users == UsersOf(replies, i)
  {
    card, users := replies[i * 2].n, replies[i * 2 + 1].m.Values;
  }

  predicate Tallied(replies: seq<Reply>, ids: seq<int>, n: nat, rows: seq<Counts>, seen: set<int>) {
    n <= |ids| && rows == RowsUpTo(replies, ids, n) && seen == UsersUpTo(replies, n)
  }

  /** One server's turn in the second loop. */
  method TallyNext(replies: seq<Reply>, ghost ids: seq<int>, i: nat, id: int, rows: seq<Counts>, seen: set<int>)
      returns (moreRows: seq<Counts>, moreSeen: set<int>)
    requires Tallied(replies, ids, i, rows, seen) && i < |ids| && ids[i] == id && IsPair(replies, i)
    ensures Tallied(replies, ids, i + 1, moreRows, moreSeen)
  {
    var card, users := ReadPair(replies, i);
    moreRows := rows + [Counts(id, card, |users|)];
    moreSeen := users + seen;
  }

  /** The second loop skips the same servers, so reply pair i belongs to the i-th server that is online. */
  method Tally(replies: seq<Reply>, servers: seq<Server>) returns (rows: seq<Counts>, totalUsers: nat)
    requires forall j: nat :: j < |Online(servers)| ==> IsPair(replies, j)
    ensures rows == RowsUpTo(replies, Online(servers), |Online(servers)|)
    ensures totalUsers == |UsersUpTo(replies, |Online(servers)|)|
  {
    var seen: set<int> := {};
    var i := 0;
    rows := [];
    for s := 0 to |servers|
      invariant Aligned(servers, s, i)
      invariant Tallied(replies, Online(servers), i, rows, seen)
    {
      StaysAligned(servers, s, i);
      if servers[s].online {
        rows, seen := TallyNext(replies, Online(servers), i, servers[s].id, rows, seen);
        i := i + 1;
      }
    }
    assert servers[..|servers|] == servers;
    totalUsers := |seen|;
  }

  /** i counts the online servers among the first s. */
  predicate Aligned(servers: seq<Server>, s: nat, i: nat) {
    s <= |servers| && i == |Online(servers[..s])| && Online(servers[..s]) <= Online(servers)
  }

  /** The next online server is the i-th one. */
  lemma StaysAligned(servers: seq<Server>, s: nat, i: nat)
    requires Aligned(servers, s, i) && s < |servers|
    ensures servers[s].online ==> i < |Online(servers)| && Online(servers)[i] == servers[s].id
                                  && Aligned(servers, s + 1, i + 1)
    ensures !servers[s].online ==> Aligned(servers, s + 1, i)
  {
    assert servers[..s + 1][..s] == servers[..s];
    OnlineIsPrefix(servers, s + 1);
    assert servers[s].online ==> Online(servers[..s + 1])[i] == servers[s].id;
  }

  /** One round of the watchdog writes what the indexes say about each online server and about all of them. */
  method WriteCounts(z: map<Entry, int>, servers: seq<Server>) returns (rows: seq<Counts>, totalUsers: nat)
    ensures |rows| == |Online(servers)|
    ensures forall j :: 0 <= j < |rows| ==> rows[j] == IndexCounts(z, Online(servers)[j])
    ensures totalUsers == |ScoredOnAny(z, Online(servers))|
  {
    var replies := FetchReplies(z, servers);
    ghost var n := |Online(servers)|;
    forall j: nat | j < n
      ensures IsPair(replies, j) && UsersOf(replies, j) == Scored(z, Online(servers)[j])
      ensures RowOf(replies, Online(servers), j) == IndexCounts(z, Online(servers)[j])
    {
      assert Answers(replies, j, z, Online(servers)[j]);
    }
    rows, totalUsers := Tally(replies, servers);
    RowsTalliedAs(replies, Online(servers), n, id => IndexCounts(z, id));
    UsersTalliedAs(replies, Online(servers), n, id => Scored(z, id));
    assert Online(servers)[..n] == Online(servers);
  }

  lemma {:induction false} RowsTalliedAs(replies: seq<Reply>, ids: seq<int>, n: nat, counts: int -> Counts)
    requires n <= |ids|
    requires forall j: nat :: j < n ==> RowOf(replies, ids, j) == counts(ids[j])
    ensures |RowsUpTo(replies, ids, n)| == n
    ensures forall j :: 0 <= j < n ==> RowsUpTo(replies, ids, n)[j] == counts(ids[j])
  {
    if n > 0 { RowsTalliedAs(replies, ids, n - 1, counts); }
  }

  lemma {:induction false} UsersTalliedAs(replies: seq<Reply>, ids: seq<int>, n: nat, users: int -> set<int>)
    requires n <= |ids| && forall j: nat :: j < n ==> UsersOf(replies, j) == users(ids[j])
    ensures UsersUpTo(replies, n) == UnionOf(users, ids[..n])
  {
    if n > 0 {
      UsersTalliedAs(replies, ids, n - 1, users);
      assert ids[..n][..n - 1] == ids[..n - 1];
    }
  }

  lemma {:induction false} OnlineIsPrefix(servers: seq<Server>, s: nat)
    requires s <= |servers|
    ensures Online(servers[..s]) <= Online(servers)
    decreases |servers| - s
  {
    if s == |servers| {
      assert servers[..s] == servers;
    } else {
      OnlineIsPrefix(servers, s + 1);
      assert servers[..s + 1][..s] == servers[..s];
    }
  }

  /** Under the index invariant the members are the open sessions, and those of them that have a user. */
  lemma MembersAreTrue(s: Store, id: int)
    requires Consistent(s)
    ensures Members(s.z, ConnectionRegistry.Server(id)) == OpenOn(s.recs, id)
    ensures forall u :: u in Members(s.z, ServerLines(id)) <==> u in OpenOn(s.recs, id) && s.recs[u].userId != 0
    ensures forall u :: u in Members(s.z, ServerLines(id)) ==> s.z[Entry(ServerLines(id), u)] == s.recs[u].userId
  {
    forall u: Uuid
      ensures u in Members(s.z, ConnectionRegistry.Server(id)) <==> u in OpenOn(s.recs, id)
      ensures u in Members(s.z, ServerLines(id)) <==> u in OpenOn(s.recs, id) && s.recs[u].userId != 0
      ensures u in Members(s.z, ServerLines(id)) ==> s.z[Entry(ServerLines(id), u)] == s.recs[u].userId
    {
      var a, b := Entry(ConnectionRegistry.Server(id), u), Entry(ServerLines(id), u);
      assert Exact(s, a) && Exact(s, b);
      assert u in Members(s.z, a.key) <==> a in s.z;
      assert u in Members(s.z, b.key) <==> b in s.z;
    }
  }

  /** So the numbers are those of the records. */
  lemma CountsAreTrue(s: Store, id: int)
    requires Consistent(s)
    ensures Members(s.z, ConnectionRegistry.Server(id)) == OpenOn(s.recs, id)
    ensures Scored(s.z, id) == UsersOn(s.recs, id)
  {
    MembersAreTrue(s, id);
    var w := WithScores(s.z, ServerLines(id));
    forall n ensures n in w.Values <==> n in UsersOn(s.recs, id) {
      if n in w.Values { var u :| u in w && w[u] == n; }
      if n in UsersOn(s.recs, id) {
        var u :| u in OpenOn(s.recs, id) && s.recs[u].userId == n && n != 0;
        assert u in w && w[u] == n;
      }
    }
  }

  /** So every row a round writes is what the records say of its server. */
  lemma RowIsTrue(s: Store, id: int)
    requires Consistent(s)
    ensures IndexCounts(s.z, id) == Counts(id, |OpenOn(s.recs, id)|, |UsersOn(s.recs, id)|)
  {
    CountsAreTrue(s, id);
  }

  /** One round over a consistent registry. */
  method WriteTrueCounts(s: Store, servers: seq<Server>) returns (rows: seq<Counts>, totalUsers: nat)
    requires Consistent(s)
    ensures |rows| == |Online(servers)|
    ensures forall j :: 0 <= j < |rows| ==>
              var id := Online(servers)[j];
              rows[j].serverId == id
              && rows[j].connections == |set u | u in s.recs && !s.recs[u].ended && s.recs[u].serverId == id|
              && rows[j].users == |UsersOn(s.recs, id)|
    ensures totalUsers == |set u | u in s.recs && !s.recs[u].ended && s.recs[u].serverId in Online(servers)
                                   && s.recs[u].userId != 0 :: s.recs[u].userId|
  {
    rows, totalUsers := WriteCounts(s.z, servers);
    forall j | 0 <= j < |rows| ensures rows[j] == IndexCounts(s.z, Online(servers)[j]) { }
    forall id { RowIsTrue(s, id); }
    TotalIsTrue(s, Online(servers));
  }

  lemma {:induction false} TotalIsTrue(s: Store, ids: seq<int>)
    requires Consistent(s)
    ensures ScoredOnAny(s.z, ids)
            == set u | u in s.recs && !s.recs[u].ended && s.recs[u].serverId in ids && s.recs[u].userId != 0
                                       :: s.recs[u].userId
  {
    if ids != [] {
      var before, last := ids[..|ids| - 1], ids[|ids| - 1];
      assert ids == before + [last];
      TotalIsTrue(s, before);
      CountsAreTrue(s, last);
    }
  }

  /** Whatever has happened to the registry, a server is never credited with fewer sessions than it has open. */
  lemma ConnectionsNeverTooLow(s: Store, id: int)
    requires WeaklyConsistent(s)
    ensures OpenOn(s.recs, id) <= Members(s.z, ConnectionRegistry.Server(id))
    ensures |OpenOn(s.recs, id)| <= |Members(s.z, ConnectionRegistry.Server(id))|
  {
    forall u | u in OpenOn(s.recs, id) ensures u in Members(s.z, ConnectionRegistry.Server(id)) {
      assert NearlyExact(s, Entry(ConnectionRegistry.Server(id), u));
    }
    SubsetSize(OpenOn(s.recs, id), Members(s.z, ConnectionRegistry.Server(id)));
  }
}
