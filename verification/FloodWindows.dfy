/**
The three flood guards.  Each keeps one small file per address and looks at the clock once per request; the laws say
what the file means in terms of the whole history of requests.
*/
module FloodWindows {
  import opened Collections

  /** The clock readings of successive requests never decrease. */
  predicate Ordered(times: seq<int>) { forall i, j :: 0 <= i < j < |times| ==> times[i] <= times[j] }

  // ---------------------------------------------------------------- request floods

  datatype FloodRow = FloodRow(requests: int, lastRequest: int)

  class FloodFile {
    var row: Option<FloodRow>

    constructor ()
      ensures row == None
    {
      row := None;
    }

    /** One request at time now; blocking an address also deletes its file. */
    method CheckFlood(now: int, limit: int, seconds: int) returns (blocked: bool)
      modifies this
      ensures limit == 0 ==> !blocked && row == old(row)
      ensures limit != 0 ==> (row, blocked) == FloodStep(old(row), now, limit, seconds)
    {
      blocked := false;
      if limit != 0 {
        if row.Some? {
          var r := row.value;
          if now - r.lastRequest <= seconds {
            r := r.(requests := r.requests + 1);
            if limit > r.requests {
              row := Some(r.(lastRequest := now));
            } else {
              blocked := true;
              row := None;
            }
          } else {
            row := Some(FloodRow(0, now));
          }
        } else {
          row := Some(FloodRow(0, now));
        }
      }
    }
  }

  function FloodStep(row: Option<FloodRow>, now: int, limit: int, seconds: int): (Option<FloodRow>, bool) {
    if row.None? || now - row.value.lastRequest > seconds then (Some(FloodRow(0, now)), false)
    else if row.value.requests + 1 < limit then (Some(FloodRow(row.value.requests + 1, now)), false)
    else (None, true)
  }

  /** The file after a history of requests, and whether the last of them was blocked. */
  function FloodHistory(times: seq<int>, limit: int, seconds: int): (Option<FloodRow>, bool) {
    if times == [] then (None, false)
    else FloodStep(FloodHistory(times[..|times| - 1], limit, seconds).0, times[|times| - 1], limit, seconds)
  }

  /** The length of the run of requests, each within seconds of the one before, that ends with the last request. */
  function RunLength(times: seq<int>, seconds: int): nat {
    if times == [] then 0
    else if |times| >= 2 && times[|times| - 1] - times[|times| - 2] <= seconds
    then RunLength(times[..|times| - 1], seconds) + 1
    else 1
  }

  /** In every run of close requests, exactly each (limit + 1)-th one is blocked. */
  lemma {:induction false} FloodBlocksEvery(times: seq<int>, limit: int, seconds: int)
    requires limit >= 1
    ensures var (row, blocked) := FloodHistory(times, limit, seconds);
            var p := RunLength(times, seconds) % (limit + 1);
            && (times != [] ==> (blocked <==> p == 0))
            && row == if p == 0 then None else Some(FloodRow(p - 1, times[|times| - 1]))
  {
    if times != [] {
      FloodBlocksEvery(times[..|times| - 1], limit, seconds);
      NextInCycle(RunLength(times[..|times| - 1], seconds), limit + 1);
      NextInCycle(0, limit + 1);
    }
  }

  lemma NextInCycle(n: nat, m: nat)
    requires m >= 2
    ensures (n + 1) % m == if n % m == m - 1 then 0 else n % m + 1
  {
    var q, r := n / m, n % m;
    assert n == q * m + r;
    if r == m - 1 {
      assert n + 1 == (q + 1) * m + 0 by { assert (q + 1) * m == q * m + m; }
      RemainderIs(n + 1, q + 1, 0, m);
    } else {
      RemainderIs(n + 1, q, r + 1, m);
    }
  }

  lemma RemainderIs(n: nat, q: nat, r: nat, m: nat)
    requires r < m && n == q * m + r
    ensures n % m == r
  {
    var d := q - n / m;
    assert d * m == n % m - r by { assert n == (n / m) * m + n % m; assert d * m == q * m - (n / m) * m; }
  }

  // ---------------------------------------------------------------- authentication floods

  datatype AuthRow = AuthRow(attempts: seq<int>, blockUntil: Option<int>)

  /** The attempts that are younger than the window. */
  function Recent(attempts: seq<int>, now: int, window: int): seq<int> {
    if attempts == [] then []
    else Recent(attempts[..|attempts| - 1], now, window)
         + (if now - attempts[|attempts| - 1] < window then [attempts[|attempts| - 1]] else [])
  }

  /** An attempt is kept if and only if it is younger than the window; the order stays, and so does every repetition. */
  lemma {:induction false} RecentKeeps(attempts: seq<int>, now: int, window: int, t: int)
    ensures multiset(Recent(attempts, now, window))[t] == if now < t + window then multiset(attempts)[t] else 0
    ensures Ordered(attempts) ==> Ordered(Recent(attempts, now, window))
  {
    if attempts != [] {
      var front, last := attempts[..|attempts| - 1], attempts[|attempts| - 1];
      assert attempts == front + [last];
      RecentKeeps(front, now, window, t);
      if Ordered(attempts) { RecentIsOlder(front, now, window, last); }
    }
  }

  lemma {:induction false} RecentIsOlder(attempts: seq<int>, now: int, window: int, bound: int)
    requires forall i :: 0 <= i < |attempts| ==> attempts[i] <= bound
    ensures forall i :: 0 <= i < |Recent(attempts, now, window)| ==> Recent(attempts, now, window)[i] <= bound
  {
    if attempts != [] { RecentIsOlder(attempts[..|attempts| - 1], now, window, bound); }
  }

  method TruncateList(attempts: seq<int>, now: int, window: int) returns (allowed: seq<int>)
    ensures allowed == Recent(attempts, now, window)
  {
    allowed := [];
    for i := 0 to |attempts|
      invariant allowed == Recent(attempts[..i], now, window)
    {
      assert attempts[..i + 1][..i] == attempts[..i];
      if now - attempts[i] < window {
        allowed := allowed + [attempts[i]];
      }
    }
    assert attempts[..|attempts|] == attempts;
  }

  class AuthFile {
    var row: Option<AuthRow>

    constructor ()
      ensures row == None
    {
      row := None;
    }

    method CheckAuthFlood(now: int, limit: int, window: int)
      modifies this
      ensures row == if limit == 0 then old(row) else Some(AuthStep(old(row), now, limit, window))
    {
      if limit != 0 {
        if row.Some? {
          var r := row.value;
          var attempts := TruncateList(r.attempts, now, window);
          r := r.(attempts := attempts);
          if limit < |r.attempts| {
            r := r.(blockUntil := Some(now + window));
          }
          row := Some(r.(attempts := r.attempts + [now]));
        } else {
          row := Some(AuthRow([now], None));
        }
      }
    }
  }

  function AuthStep(row: Option<AuthRow>, now: int, limit: int, window: int): AuthRow {
    if row.None? then AuthRow([now], None)
    else
      var attempts := Recent(row.value.attempts, now, window);
      AuthRow(attempts + [now], if limit < |attempts| then Some(now + window) else row.value.blockUntil)
  }

  function AuthHistory(times: seq<int>, limit: int, window: int): Option<AuthRow> {
    if times == [] then None
    else Some(AuthStep(AuthHistory(times[..|times| - 1], limit, window), times[|times| - 1], limit, window))
  }

  /**
  From the full history: block until a window after the last request that found more than limit others in its
  window.
  */
  function BlockedUntil(times: seq<int>, limit: int, window: int): Option<int> {
    if times == [] then None
    else
      var earlier, now := times[..|times| - 1], times[|times| - 1];
      if limit < |Recent(earlier, now, window)| then Some(now + window) else BlockedUntil(earlier, limit, window)
  }

  lemma {:induction false} RecentOfTwo(a: seq<int>, b: seq<int>, now: int, window: int)
    ensures Recent(a + b, now, window) == Recent(a, now, window) + Recent(b, now, window)
  {
    if b == [] {
      assert a + b == a;
    } else {
      assert (a + b)[..|a + b| - 1] == a + b[..|b| - 1];
      RecentOfTwo(a, b[..|b| - 1], now, window);
    }
  }

  /** Pruning earlier never removes what a later pruning would keep. */
  lemma {:induction false} RecentOfRecent(a: seq<int>, earlier: int, now: int, window: int)
    requires earlier <= now
    ensures Recent(Recent(a, earlier, window), now, window) == Recent(a, now, window)
  {
    if a != [] {
      var front, last := a[..|a| - 1], a[|a| - 1];
      RecentOfRecent(front, earlier, now, window);
      RecentOfTwo(Recent(front, earlier, window), if earlier - last < window then [last] else [], now, window);
      assert [last][..0] == [];
    }
  }

  /** The pruned list is exactly the in-window part of all attempts ever made, and blocking goes by the full history. */
  lemma {:induction false} AuthFileIsHistory(times: seq<int>, limit: int, window: int)
    requires Ordered(times) && times != [] && limit >= 0
    ensures var earlier, now := times[..|times| - 1], times[|times| - 1];
            AuthHistory(times, limit, window)
            == Some(AuthRow(Recent(earlier, now, window) + [now], BlockedUntil(times, limit, window)))
  {
    var earlier, now := times[..|times| - 1], times[|times| - 1];
    if earlier != [] {
      var before, last := earlier[..|earlier| - 1], earlier[|earlier| - 1];
      AuthFileIsHistory(earlier, limit, window);
      RecentOfTwo(Recent(before, last, window), [last], now, window);
      RecentOfRecent(before, last, now, window);
      RecentOfTwo(before, [last], now, window);
      assert earlier == before + [last] && last == times[|times| - 2] <= now;
      var row := AuthHistory(earlier, limit, window).value;
      assert Recent(row.attempts, now, window) == Recent(earlier, now, window);
      assert row.blockUntil == BlockedUntil(earlier, limit, window);
    } else {
      assert AuthHistory(earlier, limit, window).None? && BlockedUntil(earlier, limit, window).None?;
      assert Recent(earlier, now, window) + [now] == [now];
    }
  }

  // ---------------------------------------------------------------- brute force

  type Terms = map<string, int>

  function Young(m: Terms, now: int, window: int): Terms {
    map t | t in m && now - m[t] < window :: m[t]
  }

  datatype Attempt = Attempt(term: string, time: int)

  // The settings, and the comparison of terms, which takes some different spellings of a number for the same.
  datatype Guard = Guard(limit: int, window: int, same: (string, string) -> bool)

  /** in_array over the stored terms. */
  predicate Repeats(m: Terms, term: string, g: Guard) { exists t :: t in m && g.same(t, term) }

  class BruteFile {
    var row: Option<Terms>

    constructor ()
      ensures row == None
    {
      row := None;
    }

    /** A repeated term inside the window leaves the stored map alone, old entries included. */
    method CheckBruteforce(term: string, now: int, g: Guard) returns (blocked: bool)
      modifies this
      ensures g.limit == 0 ==> !blocked && row == old(row)
      ensures g.limit != 0 ==> (row, blocked) == BruteStep(old(row), Attempt(term, now), g, false)
    {
      blocked := false;
      if g.limit == 0 {
      } else if row.Some? {
        var attempts := Young(row.value, now, g.window);
        if !Repeats(attempts, term, g) {
          attempts := attempts[term := now];
          if g.limit > |attempts| {
            row := Some(attempts);
          } else {
            blocked := true;
            row := None;
          }
        }
      } else {
        row := Some(map[term := now]);
      }
    }
  }

  /** One attempt; with eager pruning the map is rewritten even when the term is a repeat. */
  function BruteStep(row: Option<Terms>, a: Attempt, g: Guard, eager: bool): (Option<Terms>, bool) {
    if row.None? then (Some(map[a.term := a.time]), false)
    else
      var young := Young(row.value, a.time, g.window);
      if Repeats(young, a.term, g) then (if eager then Some(young) else row, false)
      else if |young[a.term := a.time]| < g.limit then (Some(young[a.term := a.time]), false)
      else (None, true)
  }

  function BruteHistory(h: seq<Attempt>, g: Guard, eager: bool): (Option<Terms>, bool) {
    if h == [] then (None, false)
    else BruteStep(BruteHistory(h[..|h| - 1], g, eager).0, h[|h| - 1], g, eager)
  }

  predicate OrderedAttempts(h: seq<Attempt>) { forall i, j :: 0 <= i < j < |h| ==> h[i].time <= h[j].time }

  lemma YoungOfYoung(m: Terms, earlier: int, now: int, window: int)
    requires earlier <= now
    ensures Young(Young(m, earlier, window), now, window) == Young(m, now, window)
  {
  }

  /** Two files that prune to the same map from now on. */
  ghost predicate SameFromNowOn(a: Option<Terms>, b: Option<Terms>, now: int, window: int) {
    (a.None? <==> b.None?)
    && (a.Some? ==> forall t :: t >= now ==> Young(a.value, t, window) == Young(b.value, t, window))
  }

  /** Not rewriting the file on repeats changes no decision: lazy and eager pruning block the same requests. */
  lemma {:induction false} LazyPruningIsEager(h: seq<Attempt>, g: Guard)
    requires OrderedAttempts(h)
    ensures BruteHistory(h, g, false).1 == BruteHistory(h, g, true).1
    ensures h != [] ==> SameFromNowOn(BruteHistory(h, g, false).0, BruteHistory(h, g, true).0,
                                      h[|h| - 1].time, g.window)
  {
    if h != [] {
      var front, a := h[..|h| - 1], h[|h| - 1];
      LazyPruningIsEager(front, g);
      var lazy, eager := BruteHistory(front, g, false).0, BruteHistory(front, g, true).0;
      if lazy.Some? {
        assert Young(lazy.value, a.time, g.window) == Young(eager.value, a.time, g.window);
        forall t | t >= a.time
          ensures Young(Young(eager.value, a.time, g.window), t, g.window) == Young(lazy.value, t, g.window)
        {
          YoungOfYoung(lazy.value, a.time, t, g.window);
        }
      }
    }
  }

  // ---------------------------------------------------------------- when an attempt is blocked

  /** All terms are different, by any comparison. */
  predicate AllDiffer(h: seq<Attempt>, g: Guard) {
    forall i, j :: 0 <= i < |h| && 0 <= j < |h| && i != j ==> h[i].term != h[j].term && !g.same(h[i].term, h[j].term)
  }

  predicate InOneWindow(h: seq<Attempt>, g: Guard) {
    forall i, j :: 0 <= i < |h| && 0 <= j < |h| ==> h[i].time - h[j].time < g.window
  }

  /** The last n terms with their times. */
  function LastTerms(h: seq<Attempt>, n: nat): Terms
    requires n <= |h|
  {
    if n == 0 then map[] else LastTerms(h[..|h| - 1], n - 1)[h[|h| - 1].term := h[|h| - 1].time]
  }

  lemma {:induction false} LastTermsAre(h: seq<Attempt>, n: nat, g: Guard)
    requires n <= |h| && AllDiffer(h, g)
    ensures |LastTerms(h, n)| == n
    ensures forall t :: t in LastTerms(h, n) ==>
                          exists i :: 0 <= i < |h| && h[i].term == t && h[i].time == LastTerms(h, n)[t]
  {
    if n > 0 {
      LastTermsAre(h[..|h| - 1], n - 1, g);
      assert h[|h| - 1].term !in LastTerms(h[..|h| - 1], n - 1);
    }
  }

  /** One more different term within the window is counted, or blocked when the count has come to the limit. */
  lemma NextDifferent(h: seq<Attempt>, n: nat, g: Guard, eager: bool)
    requires 0 < n < |h| && AllDiffer(h, g) && InOneWindow(h, g)
    ensures BruteStep(Some(LastTerms(h[..|h| - 1], n)), h[|h| - 1], g, eager)
         == if n + 1 < g.limit then (Some(LastTerms(h, n + 1)), false) else (None, true)
  {
    var front, last := h[..|h| - 1], h[|h| - 1];
    var m := LastTerms(front, n);
    LastTermsAre(front, n, g);
    forall t | t in m ensures last.time - m[t] < g.window && !g.same(t, last.term) && t != last.term {
      var i :| 0 <= i < |front| && front[i].term == t && front[i].time == m[t];
      assert h[i] == front[i];
    }
    assert Young(m, last.time, g.window) == m;
    LastTermsAre(h, n + 1, g);
  }

  /** Counting up to m and around: n % m, one at a time. */
  function Cycle(n: nat, m: nat): (p: nat)
    requires m >= 2
    ensures p < m
  {
    if n == 0 then 0 else if Cycle(n - 1, m) == m - 1 then 0 else Cycle(n - 1, m) + 1
  }

  lemma {:induction false} CycleIs(n: nat, m: nat)
    requires m >= 2
    ensures Cycle(n, m) == n % m
  {
    if n > 0 {
      CycleIs(n - 1, m);
      NextInCycle(n - 1, m);
    }
  }

  /** At the limit, but never at the first attempt. */
  function BlockedAt(limit: int): nat { if limit < 2 then 2 else limit }

  lemma {:induction false} BruteCycle(h: seq<Attempt>, g: Guard, eager: bool)
    requires AllDiffer(h, g) && InOneWindow(h, g)
    ensures var p := Cycle(|h|, BlockedAt(g.limit));
            && p <= |h|
            && (h != [] ==> (BruteHistory(h, g, eager).1 <==> p == 0))
            && BruteHistory(h, g, eager).0 == if p == 0 then None else Some(LastTerms(h, p))
  {
    if h != [] {
      var front := h[..|h| - 1];
      FrontDiffers(h, g);
      BruteCycle(front, g, eager);
      var p := Cycle(|front|, BlockedAt(g.limit));
      if p == 0 {
        assert LastTerms(front, 0) == map[];
        assert LastTerms(h, 1) == map[h[|h| - 1].term := h[|h| - 1].time];
      } else {
        NextDifferent(h, p, g, eager);
      }
    }
  }

  lemma FrontDiffers(h: seq<Attempt>, g: Guard)
    requires h != [] && AllDiffer(h, g) && InOneWindow(h, g)
    ensures AllDiffer(h[..|h| - 1], g) && InOneWindow(h[..|h| - 1], g)
  {
  }

  /**
  Of a run of different terms within one window exactly each m-th is blocked, where m is the limit, but at least 2; a
  block starts the count anew.  This holds with lazy and with eager pruning.
  */
  lemma BruteBlocksEvery(h: seq<Attempt>, g: Guard, eager: bool)
    requires AllDiffer(h, g) && InOneWindow(h, g)
    ensures var m := if g.limit < 2 then 2 else g.limit;
            && (h != [] ==> (BruteHistory(h, g, eager).1 <==> |h| % m == 0))
            && (BruteHistory(h, g, eager).0 == None <==> |h| % m == 0)
            && (|h| % m != 0 ==> |BruteHistory(h, g, eager).0.value| == |h| % m)
  {
    BruteCycle(h, g, eager);
    CycleIs(|h|, BlockedAt(g.limit));
    LastTermsAre(h, Cycle(|h|, BlockedAt(g.limit)), g);
  }

  /** Once every stored term is as old as the window, all is forgotten: the attempt counts as the only one. */
  lemma ExpiredTermsDoNotCount(row: Terms, a: Attempt, g: Guard, eager: bool)
    requires forall t :: t in row ==> row[t] + g.window <= a.time
    ensures BruteStep(Some(row), a, g, eager)
         == if 1 < g.limit then (Some(map[a.term := a.time]), false) else (None, true)
  {
    assert Young(row, a.time, g.window) == map[];
  }

  /** A term that the window already holds is never blocked. */
  lemma RepeatIsNeverBlocked(row: Terms, t: string, a: Attempt, g: Guard, eager: bool)
    requires t in row && a.time < row[t] + g.window && g.same(t, a.term)
    ensures !BruteStep(Some(row), a, g, eager).1
    ensures !eager ==> BruteStep(Some(row), a, g, eager).0 == Some(row)
  {
    assert t in Young(row, a.time, g.window);
  }
}
