/**
The periodic sweep over the SQL session table on the main server: dead and expired rows go, then the excess of
every line.
*/
module SessionSweep {
  import opened Collections

  type Uuid = string

  datatype Row = Row(uuid: Uuid, userId: int, serverId: int, ended: bool, container: string, dateStart: int,
                     lastRead: int, expires: Option<int>, processRuns: bool)

  datatype Config = Config(self: int, now: int, autoKick: int)

  datatype Line = Line(maxConnections: int, restreamer: bool)

  /** The five reasons to close a row that is served here. */
  predicate Overdue(c: Config, line: Line, r: Row) {
    && r.serverId == c.self
    && if r.expires.Some? && r.expires.value < c.now then true
       else if c.autoKick != 0 && c.autoKick <= c.now - r.dateStart && !line.restreamer then true
       else if r.container == "hls" then 30 <= c.now - r.lastRead || r.ended
       else if r.container == "ts" then (r.ended && 300 <= c.now - r.lastRead) || !r.processRuns
       else false
  }

  /** The line's connections are restreamed. */
  predicate Restreams(lines: map<int, Line>, user: int) { user in lines && lines[user].restreamer }

  /** What a row is closed for, each reason by itself; rows served elsewhere are never overdue. */
  lemma WhatIsOverdue(c: Config, lines: map<int, Line>, r: Row)
    ensures Overdue(c, LineOf(lines, r.userId), r)
       <==> && r.serverId == c.self
            && (|| (r.expires.Some? && c.now > r.expires.value)
                || (c.autoKick != 0 && r.dateStart + c.autoKick <= c.now && !Restreams(lines, r.userId))
                || (r.container == "hls" && (r.ended || r.lastRead + 30 <= c.now))
                || (r.container == "ts" && (!r.processRuns || (r.ended && r.lastRead + 300 <= c.now))))
  {
  }

  // ---------------------------------------------------------------- filters over rows in activity order

  function Unended(rows: seq<Row>): seq<Row> {
    if rows == [] then []
    else Unended(rows[..|rows| - 1]) + (if rows[|rows| - 1].ended then [] else [rows[|rows| - 1]])
  }

  function OverdueRows(rows: seq<Row>, c: Config, line: Line): seq<Row> {
    if rows == [] then []
    else OverdueRows(rows[..|rows| - 1], c, line)
         + (if Overdue(c, line, rows[|rows| - 1]) then [rows[|rows| - 1]] else [])
  }

  function OfUser(rows: seq<Row>, user: int): seq<Row> {
    if rows == [] then []
    else OfUser(rows[..|rows| - 1], user) + (if rows[|rows| - 1].userId == user then [rows[|rows| - 1]] else [])
  }

  /** DELETE ... WHERE uuid IN (...) */
  function Without(rows: seq<Row>, gone: set<Uuid>): seq<Row> {
    if rows == [] then []
    else Without(rows[..|rows| - 1], gone) + (if rows[|rows| - 1].uuid in gone then [] else [rows[|rows| - 1]])
  }

  function Uuids(rows: seq<Row>): set<Uuid> { set r | r in rows :: r.uuid }

  /** How many un-ended rows a line has too many; rows closed as overdue still count. */
  function ExcessCount(rows: seq<Row>, line: Line): nat {
    if 0 < line.maxConnections < |Unended(rows)| then |Unended(rows)| - line.maxConnections else 0
  }

  /** The rows one line loses: the overdue ones, and the oldest un-ended ones beyond its limit. */
  function Doomed(rows: seq<Row>, c: Config, line: Line): seq<Row> {
    OverdueRows(rows, c, line) + Unended(rows)[..ExcessCount(rows, line)]
  }

  // ---------------------------------------------------------------- one line

  /** The first loop: close what is overdue, and count what was un-ended before. */
  method CloseOverdue(rows: seq<Row>, c: Config, line: Line) returns (doomed: seq<Row>, active: nat)
    ensures doomed == OverdueRows(rows, c, line) && active == |Unended(rows)|
  {
    active := 0;
    doomed := [];
    for i := 0 to |rows|
      invariant doomed == OverdueRows(rows[..i], c, line) && active == |Unended(rows[..i])|
    {
      var r := rows[i];
      assert rows[..i + 1][..i] == rows[..i];
      if r.serverId == c.self {
        if r.expires.None? || r.expires.value >= c.now {
          var total := c.now - r.dateStart;
          if !(c.autoKick != 0 && c.autoKick <= total) || line.restreamer {
            if r.container == "hls" {
              if 30 <= c.now - r.lastRead || r.ended {
                doomed := doomed + [r];
              }
            } else if r.container == "ts" {
              if (r.ended && 300 <= c.now - r.lastRead) || !r.processRuns {
                doomed := doomed + [r];
              }
            }
          } else {
            doomed := doomed + [r];
          }
        } else {
          doomed := doomed + [r];
        }
      }
      if !r.ended {
        active := active + 1;
      }
    }
    assert rows[..|rows|] == rows;
  }

  /** The second loop: close un-ended rows, oldest first, until the count is down to the limit. */
  method CloseExcess(rows: seq<Row>, max: int, count: nat) returns (doomed: seq<Row>)
    requires count == |Unended(rows)| && 0 < max < count
    ensures doomed == Unended(rows)[..count - max]
  {
    doomed := [];
    var active := count;
    var i := 0;
    while i < |rows| && active > max
      invariant 0 <= i <= |rows| && doomed == Unended(rows[..i]) <= Unended(rows)
      invariant active == count - |doomed| >= max
      invariant i == |rows| ==> rows[..i] == rows
    {
      UnendedGrows(rows, i + 1);
      assert rows[..i + 1][..i] == rows[..i];
      if !rows[i].ended {
        doomed := doomed + [rows[i]];
        active := active - 1;
      }
      i := i + 1;
    }
  }

  method SweepLine(rows: seq<Row>, c: Config, line: Line) returns (doomed: seq<Row>)
    ensures doomed == Doomed(rows, c, line)
  {
    var active;
    doomed, active := CloseOverdue(rows, c, line);
    if 0 < line.maxConnections && line.maxConnections < active {
      var excess := CloseExcess(rows, line.maxConnections, active);
      doomed := doomed + excess;
    }
  }

  lemma {:induction false} UnendedGrows(rows: seq<Row>, n: nat)
    requires n <= |rows|
    ensures Unended(rows[..n]) <= Unended(rows)
    decreases |rows| - n
  {
    if n == |rows| {
      assert rows[..n] == rows;
    } else {
      UnendedGrows(rows, n + 1);
      assert rows[..n + 1][..n] == rows[..n];
    }
  }

  // ---------------------------------------------------------------- what deletion leaves

  lemma {:induction false} WithoutOfTwo(a: seq<Row>, b: seq<Row>, gone: set<Uuid>)
    ensures Without(a + b, gone) == Without(a, gone) + Without(b, gone)
  {
    if b == [] {
      assert a + b == a;
    } else {
      var front := b[..|b| - 1];
      assert (a + b)[..|a + b| - 1] == a + front;
      WithoutOfTwo(a, front, gone);
    }
  }

  lemma {:induction false} WithoutUnended(rows: seq<Row>, gone: set<Uuid>)
    ensures Unended(Without(rows, gone)) == Without(Unended(rows), gone)
  {
    if rows != [] {
      var front, last := rows[..|rows| - 1], rows[|rows| - 1];
      assert rows == front + [last];
      WithoutUnended(front, gone);
      UnendedSnoc(front, last);
      WithoutSnoc(front, last, gone);
      UnendedSnoc(Without(front, gone), last);
      WithoutSnoc(Unended(front), last, gone);
    }
  }

  lemma UnendedSnoc(rows: seq<Row>, r: Row)
    ensures Unended(rows + [r]) == if r.ended then Unended(rows) else Unended(rows) + [r]
  {
    assert Unended(rows) + [] == Unended(rows);
    assert (rows + [r])[..|rows|] == rows;
  }

  lemma WithoutSnoc(rows: seq<Row>, r: Row, gone: set<Uuid>)
    ensures Without(rows + [r], gone) == if r.uuid in gone then Without(rows, gone) else Without(rows, gone) + [r]
  {
    assert Without(rows, gone) + [] == Without(rows, gone);
    assert (rows + [r])[..|rows|] == rows;
  }

  lemma {:induction false} WithoutShrinks(rows: seq<Row>, gone: set<Uuid>)
    ensures |Without(rows, gone)| <= |rows|
    ensures (forall r :: r in rows ==> r.uuid in gone) ==> Without(rows, gone) == []
  {
    if rows != [] { WithoutShrinks(rows[..|rows| - 1], gone); }
  }

  /** A line that has lost its doomed rows (and perhaps others) is within its limit. */
  lemma WithinLimit(rows: seq<Row>, c: Config, line: Line, gone: set<Uuid>)
    requires Uuids(Doomed(rows, c, line)) <= gone && 0 < line.maxConnections
    ensures |Unended(Without(rows, gone))| <= line.maxConnections
  {
    var u, k := Unended(rows), ExcessCount(rows, line);
    WithoutUnended(rows, gone);
    forall r | r in u[..k] ensures r.uuid in gone { assert r in Doomed(rows, c, line); }
    WithoutPrefix(u, k, gone);
  }

  lemma WithoutPrefix(rows: seq<Row>, k: nat, gone: set<Uuid>)
    requires k <= |rows| && forall r :: r in rows[..k] ==> r.uuid in gone
    ensures |Without(rows, gone)| <= |rows| - k
  {
    assert rows == rows[..k] + rows[k..];
    WithoutOfTwo(rows[..k], rows[k..], gone);
    WithoutShrinks(rows[..k], gone);
    WithoutShrinks(rows[k..], gone);
  }

  // ---------------------------------------------------------------- the whole table

  class SessionTable {
    var rows: seq<Row>

    /** Sweep the lines one after the other; each line's rows were read before the sweep began. */
    method Sweep(c: Config, users: seq<int>, lines: map<int, Line>)
      modifies this
      ensures rows == Without(old(rows), Gone(old(rows), c, users, lines))
    {
      var snapshot := rows;
      assert Without(rows, {}) == rows by { WithoutNothing(rows); }
      for i := 0 to |users|
        invariant rows == Without(snapshot, Gone(snapshot, c, users[..i], lines))
      {
        assert users[..i + 1][..i] == users[..i];
        var doomed := SweepLine(OfUser(snapshot, users[i]), c, LineOf(lines, users[i]));
        WithoutTwice(snapshot, Gone(snapshot, c, users[..i], lines), Uuids(doomed));
        rows := Without(rows, set r | r in doomed :: r.uuid);
      }
      assert users[..|users|] == users;
    }
  }

  /** A user the lines table does not know has no limit. */
  function LineOf(lines: map<int, Line>, user: int): Line {
    if user in lines then lines[user] else Line(0, false)
  }

  /** All rows the sweep closes. */
  function Gone(rows: seq<Row>, c: Config, users: seq<int>, lines: map<int, Line>): set<Uuid> {
    if users == [] then {}
    else
      var user := users[|users| - 1];
      Gone(rows, c, users[..|users| - 1], lines) + Uuids(Doomed(OfUser(rows, user), c, LineOf(lines, user)))
  }

  lemma {:induction false} WithoutNothing(rows: seq<Row>)
    ensures Without(rows, {}) == rows
  {
    if rows != [] { WithoutNothing(rows[..|rows| - 1]); }
  }

  lemma {:induction false} WithoutTwice(rows: seq<Row>, a: set<Uuid>, b: set<Uuid>)
    ensures Without(Without(rows, a), b) == Without(rows, a + b)
  {
    if rows != [] {
      var front, last := rows[..|rows| - 1], rows[|rows| - 1];
      assert rows == front + [last];
      WithoutTwice(front, a, b);
      WithoutSnoc(front, last, a);
      WithoutSnoc(front, last, a + b);
      WithoutSnoc(Without(front, a), last, b);
    }
  }

  lemma OfUserSnoc(rows: seq<Row>, r: Row, user: int)
    ensures OfUser(rows + [r], user) == if r.userId == user then OfUser(rows, user) + [r] else OfUser(rows, user)
  {
    assert OfUser(rows, user) + [] == OfUser(rows, user);
    assert (rows + [r])[..|rows|] == rows;
  }

  lemma {:induction false} OfUserWithout(rows: seq<Row>, user: int, gone: set<Uuid>)
    ensures OfUser(Without(rows, gone), user) == Without(OfUser(rows, user), gone)
  {
    if rows != [] {
      var front, last := rows[..|rows| - 1], rows[|rows| - 1];
      assert rows == front + [last];
      OfUserWithout(front, user, gone);
      OfUserSnoc(front, last, user);
      WithoutSnoc(front, last, gone);
      WithoutSnoc(OfUser(front, user), last, gone);
      OfUserSnoc(Without(front, gone), last, user);
    }
  }

  lemma {:induction false} GoneCovers(rows: seq<Row>, c: Config, users: seq<int>, lines: map<int, Line>, user: int)
    requires user in users
    ensures Uuids(Doomed(OfUser(rows, user), c, LineOf(lines, user))) <= Gone(rows, c, users, lines)
  {
    if users[|users| - 1] != user {
      assert user in users[..|users| - 1];
      GoneCovers(rows, c, users[..|users| - 1], lines, user);
    }
  }

  /** After the sweep no swept line with a limit has more un-ended rows than its limit. */
  lemma SweepEnforcesLimits(rows: seq<Row>, c: Config, users: seq<int>, lines: map<int, Line>, user: int)
    requires user in users && 0 < LineOf(lines, user).maxConnections
    ensures |Unended(OfUser(Without(rows, Gone(rows, c, users, lines)), user))| <= LineOf(lines, user).maxConnections
  {
    var gone := Gone(rows, c, users, lines);
    OfUserWithout(rows, user, gone);
    GoneCovers(rows, c, users, lines, user);
    WithinLimit(OfUser(rows, user), c, LineOf(lines, user), gone);
  }

  // ---------------------------------------------------------------- exactly which rows go

  predicate UniqueUuids(rows: seq<Row>) { forall i, j :: 0 <= i < j < |rows| ==> rows[i].uuid != rows[j].uuid }

  lemma {:induction false} FiltersMean(rows: seq<Row>, c: Config, line: Line, user: int)
    ensures forall r :: r in Unended(rows) <==> r in rows && !r.ended
    ensures forall r :: r in OverdueRows(rows, c, line) <==> r in rows && Overdue(c, line, r)
    ensures forall r :: r in OfUser(rows, user) <==> r in rows && r.userId == user
  {
    if rows != [] {
      FiltersMean(rows[..|rows| - 1], c, line, user);
      assert rows == rows[..|rows| - 1] + [rows[|rows| - 1]];
    }
  }

  lemma {:induction false} GoneMeans(rows: seq<Row>, c: Config, users: seq<int>, lines: map<int, Line>, id: Uuid)
    ensures id in Gone(rows, c, users, lines)
       <==> exists u :: u in users && id in Uuids(Doomed(OfUser(rows, u), c, LineOf(lines, u)))
  {
    if users != [] {
      var front, last := users[..|users| - 1], users[|users| - 1];
      assert users == front + [last];
      GoneMeans(rows, c, front, lines, id);
    }
  }

  /** A row goes if and only if it is overdue or among the oldest un-ended rows beyond its own line's limit. */
  lemma RowGoesIff(rows: seq<Row>, c: Config, users: seq<int>, lines: map<int, Line>, r: Row)
    requires UniqueUuids(rows) && r in rows && r.userId in users
    ensures var mine, line := OfUser(rows, r.userId), LineOf(lines, r.userId);
            r.uuid in Gone(rows, c, users, lines)
            <==> Overdue(c, line, r) || r in Unended(mine)[..ExcessCount(mine, line)]
  {
    var mine, line := OfUser(rows, r.userId), LineOf(lines, r.userId);
    FiltersMean(rows, c, line, r.userId);
    FiltersMean(mine, c, line, r.userId);
    GoneMeans(rows, c, users, lines, r.uuid);
    forall u, x | u in users && x in Doomed(OfUser(rows, u), c, LineOf(lines, u)) && x.uuid == r.uuid
      ensures x == r && u == r.userId
    {
      FiltersMean(rows, c, LineOf(lines, u), u);
      FiltersMean(OfUser(rows, u), c, LineOf(lines, u), u);
      assert x in rows;
    }
    assert r in Doomed(mine, c, line) ==> r.uuid in Uuids(Doomed(mine, c, line));
  }

  // ---------------------------------------------------------------- exactly which rows stay

  lemma {:induction false} WithoutAgrees(rows: seq<Row>, a: set<Uuid>, b: set<Uuid>)
    requires forall r :: r in rows ==> (r.uuid in a <==> r.uuid in b)
    ensures Without(rows, a) == Without(rows, b)
  {
    if rows != [] {
      assert rows[|rows| - 1] in rows;
      WithoutAgrees(rows[..|rows| - 1], a, b);
    }
  }

  lemma {:induction false} UnendedIsUnique(rows: seq<Row>)
    requires UniqueUuids(rows)
    ensures UniqueUuids(Unended(rows))
  {
    if rows != [] {
      var front := rows[..|rows| - 1];
      UnendedIsUnique(front);
      FiltersMean(front, Config(0, 0, 0), Line(0, false), 0);
      var u := Unended(front);
      assert forall i :: 0 <= i < |u| ==> u[i] in u;
    }
  }

  lemma {:induction false} OfUserIsUnique(rows: seq<Row>, user: int)
    requires UniqueUuids(rows)
    ensures UniqueUuids(OfUser(rows, user))
  {
    if rows != [] {
      var front := rows[..|rows| - 1];
      OfUserIsUnique(front, user);
      FiltersMean(front, Config(0, 0, 0), Line(0, false), user);
      var o := OfUser(front, user);
      assert forall i :: 0 <= i < |o| ==> o[i] in o;
    }
  }

  /** The newest rows of a line: all but the k oldest un-ended ones. */
  lemma OldestAreGone(rows: seq<Row>, c: Config, users: seq<int>, lines: map<int, Line>, user: int, r: Row)
    requires UniqueUuids(rows) && user in users
    requires r in Unended(OfUser(rows, user))
    ensures var mine, line := OfUser(rows, user), LineOf(lines, user);
            r.uuid in Gone(rows, c, users, lines)
            <==> r.uuid in Uuids(OverdueRows(mine, c, line)) || r in Unended(mine)[..ExcessCount(mine, line)]
  {
    var mine, line := OfUser(rows, user), LineOf(lines, user);
    FiltersMean(rows, c, line, user);
    FiltersMean(mine, c, line, user);
    OfUserIsUnique(rows, user);
    RowGoesIff(rows, c, users, lines, r);
    OverdueByUuid(mine, c, line, r);
  }

  lemma SurvivorsOf(rows: seq<Row>, c: Config, users: seq<int>, lines: map<int, Line>, user: int,
                    mine: seq<Row>, k: nat)
    requires UniqueUuids(rows) && user in users
    requires mine == OfUser(rows, user) && k == ExcessCount(mine, LineOf(lines, user))
    ensures Unended(OfUser(Without(rows, Gone(rows, c, users, lines)), user))
         == Without(Unended(mine)[k..], Uuids(OverdueRows(mine, c, LineOf(lines, user))))
  {
    var gone := Gone(rows, c, users, lines);
    var u, overdue := Unended(mine), Uuids(OverdueRows(mine, c, LineOf(lines, user)));
    OfUserWithout(rows, user, gone);
    WithoutUnended(mine, gone);
    OfUserIsUnique(rows, user);
    UnendedIsUnique(mine);
    forall r | r in u ensures r.uuid in gone <==> r.uuid in overdue || r in u[..k] {
      OldestAreGone(rows, c, users, lines, user, r);
    }
    WithoutOldest(u, k, gone, overdue);
  }

  /** How many un-ended rows are too many: beyond the limit of the line, if it is known and has one. */
  lemma ExcessIs(mine: seq<Row>, lines: map<int, Line>, user: int)
    ensures var active, max := |Unended(mine)|, if user in lines then lines[user].maxConnections else 0;
            ExcessCount(mine, LineOf(lines, user)) == if 0 < max < active then active - max else 0
  {
  }

  /**
  The un-ended rows a swept line keeps are exactly its newest ones, as many as its limit allows (or all, without a
  limit), less the overdue ones among them.
  */
  lemma SurvivorsAre(rows: seq<Row>, c: Config, users: seq<int>, lines: map<int, Line>, user: int)
    requires UniqueUuids(rows) && user in users
    ensures var mine, line := OfUser(rows, user), LineOf(lines, user);
            Unended(OfUser(Without(rows, Gone(rows, c, users, lines)), user))
            == Without(Unended(mine)[ExcessCount(mine, line)..], Uuids(OverdueRows(mine, c, line)))
  {
    var mine := OfUser(rows, user);
    SurvivorsOf(rows, c, users, lines, user, mine, ExcessCount(mine, LineOf(lines, user)));
  }

  lemma WithoutOldest(u: seq<Row>, k: nat, gone: set<Uuid>, overdue: set<Uuid>)
    requires UniqueUuids(u) && k <= |u|
    requires forall r :: r in u ==> (r.uuid in gone <==> r.uuid in overdue || r in u[..k])
    ensures Without(u, gone) == Without(u[k..], overdue)
  {
    assert u == u[..k] + u[k..];
    WithoutOfTwo(u[..k], u[k..], gone);
    WithoutShrinks(u[..k], gone);
    forall r | r in u[k..] ensures r.uuid in gone <==> r.uuid in overdue { LaterIsNotEarlier(u, k, r); }
    WithoutAgrees(u[k..], gone, overdue);
  }

  lemma LaterIsNotEarlier(u: seq<Row>, k: nat, r: Row)
    requires UniqueUuids(u) && k <= |u| && r in u[k..]
    ensures r !in u[..k]
  {
    var j :| 0 <= j < |u[k..]| && u[k..][j] == r;
    forall i | 0 <= i < k ensures u[i] != r { assert u[i].uuid != u[k + j].uuid; }
  }

  lemma OverdueByUuid(mine: seq<Row>, c: Config, line: Line, r: Row)
    requires UniqueUuids(mine) && r in mine
    ensures r.uuid in Uuids(OverdueRows(mine, c, line)) <==> Overdue(c, line, r)
  {
    FiltersMean(mine, c, line, 0);
    if x :| x in OverdueRows(mine, c, line) && x.uuid == r.uuid {
      assert x == r;
    }
    if Overdue(c, line, r) { assert r in OverdueRows(mine, c, line); }
  }

  /** A line without overdue rows keeps as many un-ended rows as it had, or as its limit allows if that is less. */
  lemma KeepsExactly(rows: seq<Row>, c: Config, users: seq<int>, lines: map<int, Line>, user: int)
    requires UniqueUuids(rows) && user in users
    requires forall r :: r in rows && r.userId == user ==> !Overdue(c, LineOf(lines, user), r)
    ensures var active := |Unended(OfUser(rows, user))|;
            var max := if user in lines then lines[user].maxConnections else 0;
            |Unended(OfUser(Without(rows, Gone(rows, c, users, lines)), user))|
            == if 0 < max < active then max else active
  {
    var mine := OfUser(rows, user);
    var k := ExcessCount(mine, LineOf(lines, user));
    NobodyOverdue(rows, c, LineOf(lines, user), user);
    SurvivorsOf(rows, c, users, lines, user, mine, k);
    OnlyOldestGo(Unended(mine), OverdueRows(mine, c, LineOf(lines, user)), k);
    ExcessIs(mine, lines, user);
  }

  lemma OnlyOldestGo(u: seq<Row>, overdue: seq<Row>, k: nat)
    requires k <= |u| && overdue == []
    ensures |Without(u[k..], Uuids(overdue))| == |u| - k
  {
    assert Uuids(overdue) == {};
    WithoutNothing(u[k..]);
  }

  lemma NobodyOverdue(rows: seq<Row>, c: Config, line: Line, user: int)
    requires forall r :: r in rows && r.userId == user ==> !Overdue(c, line, r)
    ensures OverdueRows(OfUser(rows, user), c, line) == []
  {
    FiltersMean(rows, c, line, user);
    FiltersMean(OfUser(rows, user), c, line, user);
    NoMembers(OverdueRows(OfUser(rows, user), c, line));
  }

  lemma NoMembers(rows: seq<Row>)
    ensures (forall r :: r !in rows) ==> rows == []
  {
    if rows != [] {
      assert rows[0] in rows;
    }
  }
}
