/**
Closing a line's connections down to its limit: own address and agent first, then own address, then anything,
oldest first.
*/
module ConnectionLimit {
  import opened Collections
  import opened ConnectionRegistry
  import opened RegistryLaws

  // One open connection of the line, as the limiter reads it.
  datatype OpenRow = OpenRow(session: Session, pid: int, ip: string, agent: string, container: string)

  // The request on whose behalf connections are closed.
  datatype Caller = Caller(pid: int, ip: string, agent: string)

  /** The kinds of pass, depending on what is known about the caller: 2 address and agent, 1 address, 0 any. */
  function Kinds(me: Caller): seq<int> {
    if me.ip != "" && me.agent != "" then [2, 1, 0] else if me.ip != "" then [1, 0] else [0]
  }

  predicate Victim(c: OpenRow, kind: int, me: Caller) {
    c.pid != me.pid && (kind == 0 || (c.ip == me.ip && (kind == 1 || (kind == 2 && c.agent == me.agent))))
  }

  /** The positions a pass of the given kind would close, in order. */
  function Pass(cs: seq<OpenRow>, kind: int, me: Caller): seq<nat> {
    if cs == [] then []
    else
      var n := |cs| - 1;
      if Victim(cs[n], kind, me) then Pass(cs[..n], kind, me) + [n] else Pass(cs[..n], kind, me)
  }

  /** All passes in a row, none of them aware of the ones before. */
  function AllPasses(cs: seq<OpenRow>, kinds: seq<int>, me: Caller): seq<nat> {
    if kinds == [] then []
    else AllPasses(cs, kinds[..|kinds| - 1], me) + Pass(cs, kinds[|kinds| - 1], me)
  }

  function Take<T>(s: seq<T>, n: nat): seq<T> { if n <= |s| then s[..n] else s }

  predicate Within(at: seq<nat>, n: nat) { forall j :: 0 <= j < |at| ==> at[j] < n }

  function SessionsAt(cs: seq<OpenRow>, at: seq<nat>): seq<Session>
    requires Within(at, |cs|)
  {
    if at == [] then [] else SessionsAt(cs, at[..|at| - 1]) + [cs[at[|at| - 1]].session]
  }

  /** The registry after closing the connections at these positions, one after the other. */
  function Closed(s: Store, cs: seq<OpenRow>, at: seq<nat>): Store
    requires Within(at, |cs|)
  {
    RemovedEach(s, SessionsAt(cs, at))
  }

  lemma ClosedSnoc(s: Store, cs: seq<OpenRow>, at: seq<nat>, i: nat)
    requires Within(at, |cs|) && i < |cs|
    ensures Within(at + [i], |cs|)
    ensures Closed(s, cs, at + [i]) == Removed(Closed(s, cs, at), cs[i].session.uuid, cs[i].session.conn)
  {
    assert (at + [i])[..|at|] == at;
    assert SessionsAt(cs, at + [i])[..|SessionsAt(cs, at)|] == SessionsAt(cs, at);
  }

  lemma {:induction false} ClosedTwice(s: Store, cs: seq<OpenRow>, a: seq<nat>, b: seq<nat>)
    requires Within(a, |cs|) && Within(b, |cs|)
    ensures Within(a + b, |cs|)
    ensures Closed(s, cs, a + b) == Closed(Closed(s, cs, a), cs, b)
  {
    if b == [] {
      assert a + b == a;
    } else {
      var front, i := b[..|b| - 1], b[|b| - 1];
      ClosedTwice(s, cs, a, front);
      assert a + b == a + front + [i] && b == front + [i];
      ClosedSnoc(s, cs, a + front, i);
      ClosedSnoc(Closed(s, cs, a), cs, front, i);
    }
  }

  /** One pass over the connections, closing what it matches until room more have been closed. */
  method OnePass(registry: Registry, cs: seq<OpenRow>, kind: int, room: nat, me: Caller) returns (closed: seq<nat>)
    modifies registry
    ensures closed == Take(Pass(cs, kind, me), room) && Within(closed, |cs|)
    ensures registry.Contents() == Closed(old(registry.Contents()), cs, closed)
  {
    closed := [];
    ghost var before := registry.Contents();
    var i := 0;
    while i < |cs| && |closed| < room
      invariant 0 <= i <= |cs| && Within(closed, |cs|)
      invariant closed == Pass(cs[..i], kind, me) && |closed| <= room
      invariant registry.Contents() == Closed(before, cs, closed)
    {
      assert cs[..i + 1][..i] == cs[..i];
      if Victim(cs[i], kind, me) {
        registry.RemoveConnection(cs[i].session.uuid, cs[i].session.conn);
        ClosedSnoc(before, cs, closed, i);
        closed := closed + [i];
      }
      i := i + 1;
    }
    PassGrows(cs, i, kind, me);
  }

  /**
  Close connections until enough are closed.  A connection is closed again, and counted again, in every pass it
  matches.  What is closed leaves the registry; the last block removes the non-HLS ones once more.
  */
  method CloseConnections(registry: Registry, cs: seq<OpenRow>, keys: nat, max: nat, me: Caller)
        returns (killed: seq<nat>)
    modifies registry
    ensures killed == Killed(cs, if keys <= max then 0 else keys - max, me) && Within(killed, |cs|)
    ensures registry.Contents() == Closed(old(registry.Contents()), cs, killed)
  {
    killed := [];
    if keys <= max {
      return;
    }
    var toKill := keys - max;
    var kinds := Kinds(me);
    ghost var before := registry.Contents();
    for p := 0 to |kinds|
      invariant killed == Take(AllPasses(cs, kinds[..p], me), toKill) && Within(killed, |cs|)
      invariant registry.Contents() == Closed(before, cs, killed)
    {
      killed := NextPass(registry, cs, kinds, p, toKill, me, killed, before);
    }
    assert kinds[..|kinds|] == kinds;
    RemoveNonHls(registry, cs, killed, before);
  }

  /** Pass p, after the passes before it have closed what killed says. */
  method NextPass(registry: Registry, cs: seq<OpenRow>, kinds: seq<int>, p: nat, toKill: nat, me: Caller,
                  killed: seq<nat>, ghost before: Store) returns (r: seq<nat>)
    requires p < |kinds| && killed == Take(AllPasses(cs, kinds[..p], me), toKill) && Within(killed, |cs|)
    requires registry.Contents() == Closed(before, cs, killed)
    modifies registry
    ensures r == Take(AllPasses(cs, kinds[..p + 1], me), toKill) && Within(r, |cs|)
    ensures registry.Contents() == Closed(before, cs, r)
  {
    OnePassMore(cs, kinds, p, me, toKill);
    var more := OnePass(registry, cs, kinds[p], toKill - |killed|, me);
    ClosedTwice(before, cs, killed, more);
    r := killed + more;
  }

  /** The final block: the connections that are not HLS are taken out of the registry a second time. */
  method RemoveNonHls(registry: Registry, cs: seq<OpenRow>, killed: seq<nat>, ghost before: Store)
    requires Within(killed, |cs|) && registry.Contents() == Closed(before, cs, killed)
    modifies registry
    ensures registry.Contents() == Closed(before, cs, killed)
  {
    for j := 0 to |killed|
      invariant registry.Contents() == Closed(before, cs, killed)
    {
      var c := cs[killed[j]];
      if c.container != "hls" {
        SessionIsThere(cs, killed, j);
        RemovingAgain(before, SessionsAt(cs, killed), c.session);
        registry.RemoveConnection(c.session.uuid, c.session.conn);
      }
    }
  }

  lemma {:induction false} SessionIsThere(cs: seq<OpenRow>, at: seq<nat>, j: nat)
    requires Within(at, |cs|) && j < |at|
    ensures cs[at[j]].session in SessionsAt(cs, at)
  {
    if j < |at| - 1 { SessionIsThere(cs, at[..|at| - 1], j); }
  }

  lemma {:induction false} PassGrows(cs: seq<OpenRow>, n: nat, kind: int, me: Caller)
    requires n <= |cs|
    ensures Pass(cs[..n], kind, me) <= Pass(cs, kind, me)
    ensures n == |cs| ==> cs[..n] == cs
    decreases |cs| - n
  {
    if n < |cs| {
      PassGrows(cs, n + 1, kind, me);
      assert cs[..n + 1][..n] == cs[..n];
    } else {
      assert cs[..n] == cs;
    }
  }

  /** Removing a session that has been removed already changes nothing. */
  lemma RemovingAgain(s: Store, xs: seq<Session>, x: Session)
    requires x in xs
    ensures Removed(RemovedEach(s, xs), x.uuid, x.conn) == RemovedEach(s, xs)
  {
    var t := RemovedEach(s, xs);
    EachMeans(s, xs, Entry(Live, ""));
    forall e: Entry | e in t.z ensures e in Removed(t, x.uuid, x.conn).z {
      EachMeans(s, xs, e);
      DroppedEntry(t.z, AllKeys(x.conn), x.uuid, e);
    }
    assert Removed(t, x.uuid, x.conn).z == t.z;
  }

  lemma {:induction false} SessionsAreRows(cs: seq<OpenRow>, at: seq<nat>)
    requires Within(at, |cs|)
    ensures forall x :: x in SessionsAt(cs, at) ==> exists c :: c in cs && c.session == x
    ensures Uuids(SessionsAt(cs, at)) == set i | i in at :: cs[i].session.uuid
  {
    if at != [] {
      var front, last := at[..|at| - 1], at[|at| - 1];
      assert at == front + [last];
      SessionsAreRows(cs, front);
      assert Uuids(SessionsAt(cs, at)) == Uuids(SessionsAt(cs, front)) + {cs[last].session.uuid};
    }
  }

  /**
  Closing connections as the registry holds them, however often each, keeps the registry exact and removes just
  them.
  */
  lemma ClosingKeepsConsistency(s: Store, cs: seq<OpenRow>, at: seq<nat>)
    requires Within(at, |cs|) && Consistent(s)
    requires forall c :: c in cs ==> c.session.uuid in s.recs && c.session.conn == s.recs[c.session.uuid]
    ensures Consistent(Closed(s, cs, at))
    ensures Closed(s, cs, at).recs == s.recs - set i | i in at :: cs[i].session.uuid
  {
    var xs := SessionsAt(cs, at);
    SessionsAreRows(cs, at);
    ConsistentHasNoStrayLines(s, xs);
    BulkIsEachIff(s, xs);
    BulkKeeps(s, xs);
    EachMeans(s, xs, Entry(Live, ""));
  }

  // ---------------------------------------------------------------- who is closed

  function Killed(cs: seq<OpenRow>, toKill: nat, me: Caller): seq<nat> { Take(AllPasses(cs, Kinds(me), me), toKill) }

  // The three passes, the first two empty unless the caller's address (and agent) are known.
  function Pass2(cs: seq<OpenRow>, me: Caller): seq<nat> {
    if me.ip != "" && me.agent != "" then Pass(cs, 2, me) else []
  }
  function Pass1(cs: seq<OpenRow>, me: Caller): seq<nat> { if me.ip != "" then Pass(cs, 1, me) else [] }
  function Pass0(cs: seq<OpenRow>, me: Caller): seq<nat> { Pass(cs, 0, me) }

  lemma AllPassesAre(cs: seq<OpenRow>, me: Caller)
    ensures AllPasses(cs, Kinds(me), me) == Pass2(cs, me) + Pass1(cs, me) + Pass0(cs, me)
  {
    AllPassesSnoc(cs, [], 0, me);
    AllPassesSnoc(cs, [], 1, me);
    AllPassesSnoc(cs, [1], 0, me);
    AllPassesSnoc(cs, [], 2, me);
    AllPassesSnoc(cs, [2], 1, me);
    AllPassesSnoc(cs, [2, 1], 0, me);
    assert [] + [0] == [0] && [] + [1] == [1] && [] + [2] == [2];
    assert [1] + [0] == [1, 0] && [2] + [1] == [2, 1] && [2, 1] + [0] == [2, 1, 0];
  }

  lemma AllPassesSnoc(cs: seq<OpenRow>, kinds: seq<int>, kind: int, me: Caller)
    ensures AllPasses(cs, kinds + [kind], me) == AllPasses(cs, kinds, me) + Pass(cs, kind, me)
  {
    assert (kinds + [kind])[..|kinds|] == kinds;
  }

  lemma TakeOfTwo<T>(a: seq<T>, b: seq<T>, n: nat)
    ensures |Take(a, n)| <= n
    ensures Take(a + b, n) == Take(a, n) + Take(b, n - |Take(a, n)|)
  {
  }

  lemma OnePassMore(cs: seq<OpenRow>, kinds: seq<int>, p: nat, me: Caller, n: nat)
    requires p < |kinds|
    ensures var taken := Take(AllPasses(cs, kinds[..p], me), n);
            |taken| <= n && Take(AllPasses(cs, kinds[..p + 1], me), n)
               == taken + Take(Pass(cs, kinds[p], me), n - |taken|)
  {
    TakeOfTwo(AllPasses(cs, kinds[..p], me), Pass(cs, kinds[p], me), n);
    AllPassesSnoc(cs, kinds[..p], kinds[p], me);
    assert kinds[..p + 1] == kinds[..p] + [kinds[p]];
  }

  predicate Increasing(s: seq<nat>) { forall j, k :: 0 <= j < k < |s| ==> s[j] < s[k] }

  lemma {:induction false} PassMeans(cs: seq<OpenRow>, kind: int, me: Caller)
    ensures forall i :: i in Pass(cs, kind, me) <==> 0 <= i < |cs| && Victim(cs[i], kind, me)
    ensures Increasing(Pass(cs, kind, me))
  {
    if cs != [] {
      var before := cs[..|cs| - 1];
      PassMeans(before, kind, me);
      assert cs == before + [cs[|cs| - 1]];
      var r := Pass(before, kind, me);
      assert forall j :: 0 <= j < |r| ==> r[j] in r;
    }
  }

  /** Who is in which pass, by the columns of the rows; never the caller itself. */
  lemma WhoIsInWhichPass(cs: seq<OpenRow>, me: Caller, i: nat)
    requires i < |cs|
    ensures i in Pass2(cs, me)
       <==> me.ip != "" && me.agent != "" && cs[i].pid != me.pid && cs[i].ip == me.ip && cs[i].agent == me.agent
    ensures i in Pass1(cs, me) <==> me.ip != "" && cs[i].pid != me.pid && cs[i].ip == me.ip
    ensures i in Pass0(cs, me) <==> cs[i].pid != me.pid
  {
    PassMeans(cs, 2, me);
    PassMeans(cs, 1, me);
    PassMeans(cs, 0, me);
  }

  function SetOf(s: seq<nat>): set<nat> { set i | i in s }

  lemma {:induction false} IncreasingIsDistinct(s: seq<nat>)
    requires Increasing(s)
    ensures |SetOf(s)| == |s|
  {
    if s != [] {
      var before, last := s[..|s| - 1], s[|s| - 1];
      IncreasingIsDistinct(before);
      assert SetOf(s) == SetOf(before) + {last};
    }
  }

  lemma {:induction false} DistinctAtMost(s: seq<nat>)
    ensures |SetOf(s)| <= |s|
  {
    if s != [] {
      var before, last := s[..|s| - 1], s[|s| - 1];
      DistinctAtMost(before);
      assert SetOf(s) == SetOf(before) + {last};
    }
  }

  /** A prefix of three increasing lists in a row has at least a third as many distinct members as it has members. */
  lemma ThirdIsDistinct(a: seq<nat>, b: seq<nat>, c: seq<nat>, n: nat)
    requires Increasing(a) && Increasing(b) && Increasing(c)
    ensures |Take(a + b + c, n)| <= 3 * |SetOf(Take(a + b + c, n))|
  {
    var x, y := Take(a, n), Take(b, if n > |a| then n - |a| else 0);
    var z := Take(c, if n > |a| + |b| then n - |a| - |b| else 0);
    assert Take(a + b + c, n) == x + y + z;
    IncreasingIsDistinct(x);
    IncreasingIsDistinct(y);
    IncreasingIsDistinct(z);
    var d := SetOf(x + y + z);
    SubsetSize(SetOf(x), d);
    SubsetSize(SetOf(y), d);
    SubsetSize(SetOf(z), d);
  }

  /**
  Never more close events than asked for, never the caller itself, and at least a third of them distinct
  sessions.
  */
  lemma KilledBounds(cs: seq<OpenRow>, toKill: nat, me: Caller)
    ensures var k := Killed(cs, toKill, me);
            && |k| <= toKill
            && (forall i :: i in k ==> i < |cs| && cs[i].pid != me.pid)
            && |SetOf(k)| <= |k| <= 3 * |SetOf(k)|
  {
    AllPassesAre(cs, me);
    PassMeans(cs, 2, me);
    PassMeans(cs, 1, me);
    PassMeans(cs, 0, me);
    ThirdIsDistinct(Pass2(cs, me), Pass1(cs, me), Pass0(cs, me), toKill);
    DistinctAtMost(Killed(cs, toKill, me));
    assert forall i :: i in Killed(cs, toKill, me) ==> i in AllPasses(cs, Kinds(me), me);
  }

  /** No other session of the line comes from the caller's address. */
  predicate NobodySharesAddress(cs: seq<OpenRow>, me: Caller) {
    forall i :: 0 <= i < |cs| && cs[i].pid != me.pid ==> cs[i].ip != me.ip
  }

  lemma AloneOnlyLastPass(cs: seq<OpenRow>, me: Caller)
    requires NobodySharesAddress(cs, me)
    ensures AllPasses(cs, Kinds(me), me) == Pass(cs, 0, me)
  {
    PassMeans(cs, 2, me);
    PassMeans(cs, 1, me);
    NobodyInEmpty(Pass2(cs, me));
    NobodyInEmpty(Pass1(cs, me));
    AllPassesAre(cs, me);
    assert [] + [] + Pass(cs, 0, me) == Pass(cs, 0, me);
  }

  lemma PrefixIsOldest(p: seq<nat>, n: nat, i: nat, j: nat)
    requires Increasing(p) && i in Take(p, n) && j in p && j !in Take(p, n)
    ensures i < j
  {
    var x :| 0 <= x < |Take(p, n)| && Take(p, n)[x] == i;
    var y :| 0 <= y < |p| && p[y] == j;
    assert x < y;
  }

  /** Then the victims are the oldest foreign sessions, and if there are enough of them exactly the limit survives. */
  lemma OldestForeignAreKilled(cs: seq<OpenRow>, max: nat, me: Caller)
    requires NobodySharesAddress(cs, me) && max <= |cs|
    ensures var k := Killed(cs, |cs| - max, me);
            && k == Take(Pass(cs, 0, me), |cs| - max)
            && (forall i, j: nat :: i in k && j < |cs| && cs[j].pid != me.pid && j !in k ==> i < j)
            && (|cs| - max <= |Pass(cs, 0, me)| ==> |cs| - |SetOf(k)| == max)
  {
    AloneOnlyLastPass(cs, me);
    PassMeans(cs, 0, me);
    var p, k := Pass(cs, 0, me), Killed(cs, |cs| - max, me);
    IncreasingIsDistinct(k);
    forall i, j: nat | i in k && j < |cs| && cs[j].pid != me.pid && j !in k ensures i < j {
      PrefixIsOldest(p, |cs| - max, i, j);
    }
  }

  lemma NobodyInEmpty(s: seq<nat>)
    ensures (forall i :: i !in s) ==> s == []
  {
    if s != [] { assert s[0] in s; }
  }

  /**
  The passes fill up the count without repetition: the first one is long enough; or the second fills it up before it
  meets a session of the first again; or the first is empty and the last fills it up before it meets one of the second.
  */
  predicate FillsWithoutRepeats(a: seq<nat>, b: seq<nat>, c: seq<nat>, toKill: nat) {
    || toKill <= |a|
    || (toKill <= |a| + |b| && forall i :: i in b[..toKill - |a|] ==> i !in a)
    || (a == [] && |b| < toKill <= |b| + |c| && forall i :: i in c[..toKill - |b|] ==> i !in b)
  }

  lemma RepeatsShrink(s: seq<nat>, i: nat, j: nat)
    requires i < j < |s| && s[i] == s[j]
    ensures |SetOf(s)| < |s|
  {
    var t := s[..j] + s[j + 1..];
    assert s == s[..j] + [s[j]] + s[j + 1..] && s[i] in s[..j];
    assert SetOf(s) == SetOf(t);
    DistinctAtMost(t);
  }

  lemma RepeatAcross(x: seq<nat>, y: seq<nat>, v: nat)
    requires v in x && v in y
    ensures |SetOf(x + y)| < |x + y|
  {
    var i :| 0 <= i < |x| && x[i] == v;
    var j :| 0 <= j < |y| && y[j] == v;
    assert (x + y)[i] == v && (x + y)[|x| + j] == v;
    RepeatsShrink(x + y, i, |x| + j);
  }

  lemma TwoDistinctParts(x: seq<nat>, y: seq<nat>)
    requires Increasing(x) && Increasing(y) && forall i :: i in y ==> i !in x
    ensures |SetOf(x + y)| == |x| + |y|
  {
    IncreasingIsDistinct(x);
    IncreasingIsDistinct(y);
    assert SetOf(x + y) == SetOf(x) + SetOf(y);
    assert SetOf(x) !! SetOf(y);
  }

  lemma FillsIff(a: seq<nat>, b: seq<nat>, c: seq<nat>, k: nat)
    requires Increasing(a) && Increasing(b) && Increasing(c)
    requires forall i :: i in a ==> i in b
    ensures |SetOf(Take(a + b + c, k))| == k <==> FillsWithoutRepeats(a, b, c, k)
  {
    var s := Take(a + b + c, k);
    DistinctAtMost(s);
    if k <= |a| {
      assert s == a[..k];
      IncreasingIsDistinct(s);
    } else if k <= |a| + |b| {
      var y := b[..k - |a|];
      assert s == a + y;
      if forall i :: i in y ==> i !in a {
        TwoDistinctParts(a, y);
      } else {
        var i :| i in y && i in a;
        RepeatAcross(a, y, i);
      }
    } else if a != [] {
      var y := Take(c, k - |a| - |b|);
      assert s == a + (b + y) && a[0] in a && a[0] in b + y;
      RepeatAcross(a, b + y, a[0]);
    } else if k <= |b| + |c| {
      var y := c[..k - |b|];
      assert s == b + y;
      if forall i :: i in y ==> i !in b {
        TwoDistinctParts(b, y);
      } else {
        var i :| i in y && i in b;
        RepeatAcross(b, y, i);
      }
    }
  }

  /** What a shorter list of connections yields is an initial part, and a victim comes right after it. */
  lemma PassSplit(cs: seq<OpenRow>, n: nat, kind: int, me: Caller)
    requires n < |cs| && Victim(cs[n], kind, me)
    ensures var p := |Pass(Take(cs, n), kind, me)|;
            p < |Pass(cs, kind, me)| && Pass(cs, kind, me)[p] == n
  {
    PassGrows(cs, n + 1, kind, me);
    assert cs[..n + 1][..n] == cs[..n];
  }

  /**
  How many connections can be closed before one is closed twice: all of the first pass that is not empty, and those
  matching the next pass that are older than the oldest of them.
  */
  function Reach(cs: seq<OpenRow>, me: Caller): nat {
    var own, near, all := Pass2(cs, me), Pass1(cs, me), Pass0(cs, me);
    if own != [] then |own| + |Pass(Take(cs, own[0]), 1, me)|
    else if near != [] then |near| + |Pass(Take(cs, near[0]), 0, me)|
    else |all|
  }

  /** In b the members of a begin at place p. */
  lemma FreshUpTo(a: seq<nat>, b: seq<nat>, p: nat, m: nat)
    requires Increasing(a) && Increasing(b) && a != [] && p < |b| && b[p] == a[0] && m <= |b|
    ensures (forall i :: i in b[..m] ==> i !in a) <==> m <= p
  {
    if m <= p {
      forall j | 0 <= j < m ensures b[j] !in a { assert b[j] < a[0]; }
    } else {
      var first := b[p];
      assert b[..m][p] == first && first in b[..m] && first in a;
    }
  }

  lemma FillsUpToReach(cs: seq<OpenRow>, me: Caller, k: nat)
    ensures FillsWithoutRepeats(Pass2(cs, me), Pass1(cs, me), Pass0(cs, me), k) <==> k <= Reach(cs, me)
  {
    var a, b, c := Pass2(cs, me), Pass1(cs, me), Pass0(cs, me);
    PassMeans(cs, 2, me);
    PassMeans(cs, 1, me);
    PassMeans(cs, 0, me);
    if a != [] {
      var first := a[0];
      assert first in a;
      PassSplit(cs, first, 1, me);
      if |a| < k <= |a| + |b| { FreshUpTo(a, b, |Pass(Take(cs, first), 1, me)|, k - |a|); }
    } else if b != [] {
      var first := b[0];
      assert first in b;
      PassSplit(cs, first, 0, me);
      if |b| < k <= |b| + |c| { FreshUpTo(b, c, |Pass(Take(cs, first), 0, me)|, k - |b|); }
    }
  }

  lemma PassesNest(cs: seq<OpenRow>, me: Caller)
    ensures Increasing(Pass2(cs, me)) && Increasing(Pass1(cs, me)) && Increasing(Pass0(cs, me))
    ensures forall i :: i in Pass2(cs, me) ==> i in Pass1(cs, me)
    ensures forall i :: i in Pass1(cs, me) ==> i in Pass0(cs, me)
  {
    PassMeans(cs, 2, me);
    PassMeans(cs, 1, me);
    PassMeans(cs, 0, me);
  }

  /**
  Exactly the limit survives if and only if what must be closed is within reach of the first two passes that
  find anybody.
  */
  lemma LimitIsMetIff(cs: seq<OpenRow>, max: nat, me: Caller)
    requires max <= |cs|
    ensures |cs| - |SetOf(Killed(cs, |cs| - max, me))| == max <==> |cs| - max <= Reach(cs, me)
  {
    PassesNest(cs, me);
    AllPassesAre(cs, me);
    FillsIff(Pass2(cs, me), Pass1(cs, me), Pass0(cs, me), |cs| - max);
    FillsUpToReach(cs, me, |cs| - max);
  }

  /** The members of s that are not in t. */
  function Fresh(s: seq<nat>, t: seq<nat>): seq<nat> {
    if s == [] then []
    else Fresh(s[..|s| - 1], t) + (if s[|s| - 1] in t then [] else [s[|s| - 1]])
  }

  lemma {:induction false} UnionCount(x: seq<nat>, y: seq<nat>)
    requires Increasing(x) && Increasing(y)
    ensures |SetOf(x + y)| == |x| + |Fresh(y, x)|
  {
    if y == [] {
      IncreasingIsDistinct(x);
      assert x + y == x;
    } else {
      var front, last := y[..|y| - 1], y[|y| - 1];
      UnionCount(x, front);
      assert last !in front;
      assert x + y == (x + front) + [last];
      OneMore(x + front, last);
      assert Fresh(front, x) + [] == Fresh(front, x);
    }
  }

  lemma OneMore(s: seq<nat>, i: nat)
    ensures |SetOf(s + [i])| == |SetOf(s)| + if i in s then 0 else 1
  {
    if i in s {
      assert SetOf(s + [i]) == SetOf(s);
    } else {
      assert SetOf(s + [i]) == SetOf(s) + {i};
    }
  }

  /** How many sessions one to three passes really close, whatever the number asked for. */
  lemma ClosedSessions(cs: seq<OpenRow>, toKill: nat, me: Caller)
    ensures var a, b, c := Pass2(cs, me), Pass1(cs, me), Pass0(cs, me);
            |SetOf(Killed(cs, toKill, me))|
            == if toKill <= |a| then toKill
               else if toKill <= |a| + |b| then |a| + |Fresh(b[..toKill - |a|], a)|
               else |b| + |Fresh(Take(c, toKill - |a| - |b|), b)|
  {
    var a, b, c := Pass2(cs, me), Pass1(cs, me), Pass0(cs, me);
    PassesNest(cs, me);
    AllPassesAre(cs, me);
    var k := Killed(cs, toKill, me);
    if toKill <= |a| {
      assert k == a[..toKill];
      IncreasingIsDistinct(k);
    } else if toKill <= |a| + |b| {
      assert k == a + b[..toKill - |a|];
      UnionCount(a, b[..toKill - |a|]);
    } else {
      var z := Take(c, toKill - |a| - |b|);
      assert k == a + b + z;
      assert SetOf(a + b + z) == SetOf(b + z);
      UnionCount(b, z);
    }
  }

  /** Three sessions, a limit of one, one session at the caller's own address: it is closed twice and two survive. */
  lemma LimitCanBeMissed(x: Session, y: Session, z: Session)
    ensures var cs := [OpenRow(x, 1, "a", "p", "ts"), OpenRow(y, 2, "b", "p", "ts"), OpenRow(z, 3, "b", "p", "ts")];
            var k := Killed(cs, 2, Caller(9, "a", ""));
            k == [0, 0] && |cs| - |SetOf(k)| == 2
  {
    var cs := [OpenRow(x, 1, "a", "p", "ts"), OpenRow(y, 2, "b", "p", "ts"), OpenRow(z, 3, "b", "p", "ts")];
    var me := Caller(9, "a", "");
    AllPassesAre(cs, me);
    var two, one, none := cs[..2], cs[..1], cs[..0];
    assert two[..1] == one && one[..0] == none == [];
    assert Pass(none, 1, me) == Pass(none, 0, me) == [];
    assert Pass(one, 1, me) == Pass(one, 0, me) == [0];
    assert Pass(two, 1, me) == [0] && Pass(two, 0, me) == [0, 1];
    assert Pass(cs, 1, me) == [0] && Pass(cs, 0, me) == [0, 1, 2];
    assert Killed(cs, 2, me) == [0, 0];
    assert SetOf([0, 0]) == {0};
  }
}
