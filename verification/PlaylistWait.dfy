/** The monitor's wait for a playlist, as the loop it is. */
module PlaylistWait {
  import opened Collections
  import opened StreamMonitor

  // What the loop finds in its t-th turn.
  datatype World = World(running: nat -> bool, playlist: nat -> bool, firstSegment: nat -> bool)

  datatype Result = Result(ready: bool, seen: bool, sleeps: nat)

  /** The loop unrolled from turn t on. */
  function WaitFrom(w: Wait, t: nat, bound: int, onDemand: bool, world: World): Result
    requires w.checks <= bound
    decreases if w.seen then 0 else 1, bound - w.checks
  {
    match WaitTurn(w, bound, onDemand, world.running(t), world.playlist(t), world.firstSegment(t))
    case Ready(seen) => Result(true, seen, t)
    case GaveUp(seen) => Result(false, seen, t)
    case Sleep(next) =>
      if next.checks <= bound then WaitFrom(next, t + 1, bound, onDemand, world) else Result(false, next.seen, t)
  }

  method WaitForPlaylist(segmentTime: int, onDemand: bool, world: World) returns (r: Result)
    ensures r == WaitFrom(Wait(false, 0), 0, Bound(segmentTime), onDemand, world)
    ensures r.sleeps <= 2 * Bound(segmentTime)
  {
    var bound := if segmentTime * 3 <= 30 then segmentTime * 3 else 30;
    if bound < 20 {
      bound := 20;
    }
    var seen, checks, sleeps := false, 0, 0;
    while true
      invariant bound == Bound(segmentTime)
      invariant 0 <= checks <= bound && sleeps <= checks + (if seen then bound else 0)
      invariant WaitFrom(Wait(false, 0), 0, bound, onDemand, world)
                == WaitFrom(Wait(seen, checks), sleeps, bound, onDemand, world)
      decreases if seen then 0 else 1, bound - checks
    {
      if !world.running(sleeps) {
        return Result(false, seen, sleeps);
      }
      if world.playlist(sleeps) {
        return Result(true, seen, sleeps);
      }
      if world.firstSegment(sleeps) && !seen && onDemand {
        seen, checks := true, 0;
      }
      if checks == bound {
        return Result(false, seen, sleeps);
      }
      checks := checks + 1;
      sleeps := sleeps + 1;
    }
  }

  // ---------------------------------------------------------------- what the loop decides

  /** A first segment counts if the stream is on demand and the segment shows up within the bound. */
  predicate Notices(bound: nat, onDemand: bool, world: World, f: nat) {
    onDemand && f <= bound && world.firstSegment(f) && forall t: nat :: t < f ==> !world.firstSegment(t)
  }

  /** The last turn the loop is prepared to take: the bound, counted again from the first segment if one counts. */
  ghost function Deadline(bound: nat, onDemand: bool, world: World): nat {
    if exists f: nat :: Notices(bound, onDemand, world, f) then
      var f: nat :| Notices(bound, onDemand, world, f);
      f + bound
    else bound
  }

  predicate Goes(world: World, t: nat) { world.running(t) && !world.playlist(t) }

  lemma {:induction false} WaitAfterSegment(t: nat, f: nat, bound: nat, onDemand: bool, world: World)
    requires bound > 0 && f < t <= f + bound
    ensures var r := WaitFrom(Wait(true, t - f), t, bound, onDemand, world);
            && r.seen && t <= r.sleeps <= f + bound
            && (forall j: nat :: t <= j < r.sleeps ==> Goes(world, j))
            && (r.ready <==> world.running(r.sleeps) && world.playlist(r.sleeps))
            && (Goes(world, r.sleeps) ==> r.sleeps == f + bound)
    decreases f + bound - t
  {
    if Goes(world, t) && t < f + bound {
      WaitAfterSegment(t + 1, f, bound, onDemand, world);
    }
  }

  lemma {:induction false} WaitBeforeSegment(t: nat, bound: nat, onDemand: bool, world: World)
    requires 0 < bound && t <= bound
    requires onDemand ==> forall j: nat :: j < t ==> !world.firstSegment(j)
    ensures var r, d := WaitFrom(Wait(false, t), t, bound, onDemand, world), Deadline(bound, onDemand, world);
            && t <= r.sleeps <= d
            && (forall j: nat :: t <= j < r.sleeps ==> Goes(world, j))
            && (r.ready <==> world.running(r.sleeps) && world.playlist(r.sleeps))
            && (Goes(world, r.sleeps) ==> r.sleeps == d)
    decreases bound - t
  {
    if Goes(world, t) {
      if onDemand && world.firstSegment(t) {
        assert Notices(bound, onDemand, world, t);
        assert forall f: nat :: Notices(bound, onDemand, world, f) ==> f == t;
        WaitAfterSegment(t + 1, t, bound, onDemand, world);
      } else if t < bound {
        WaitBeforeSegment(t + 1, bound, onDemand, world);
      }
    }
  }

  /**
  The loop ends at the first turn at which the process has died, the playlist exists or the deadline is reached, and it
  reports success exactly if that turn shows a live process and a playlist.
  */
  lemma WaitMeaning(bound: nat, onDemand: bool, world: World)
    requires 0 < bound
    ensures var r, d := WaitFrom(Wait(false, 0), 0, bound, onDemand, world), Deadline(bound, onDemand, world);
            && r.sleeps <= d <= 2 * bound
            && (forall j: nat :: j < r.sleeps ==> Goes(world, j))
            && (r.ready <==> world.running(r.sleeps) && world.playlist(r.sleeps))
            && (Goes(world, r.sleeps) ==> r.sleeps == d)
  {
    WaitBeforeSegment(0, bound, onDemand, world);
  }

  // ---------------------------------------------------------------- the monitor's machine waits in this way

  /** The loop's world is what the machine finds, turn by turn; an empty process id is never running. */
  ghost predicate SameWorld(s: State, es: seq<Env>, world: World) {
    forall t: nat :: t < |es| ==>
                       && (world.running(t) <==> s.pid != 0 && es[t].running)
                       && (world.playlist(t) <==> es[t].playlist)
                       && (world.firstSegment(t) <==> es[t].firstSegment)
  }

  /** The machine at label998 after t turns: s but for its counters and, if a segment was noticed, the status. */
  predicate Waits(s: State, r: State, w: Wait) {
    && r.pc == Try(L998) && r.pid == s.pid && (s.now.seen ==> w.seen)
    && r.now == s.now.(seen := w.seen, checks := w.checks,
                       status := if w.seen && !s.now.seen then Some(0) else s.now.status)
  }

  /** And at label562: given up means failed. */
  predicate Waited(s: State, r: State, result: Result) {
    && r.pc == Try(L562) && r.pid == s.pid && r.now.seen == result.seen && r.now.bound == s.now.bound
    && (s.now.seen ==> result.seen)
    && r.now.failed == (s.now.failed || !result.ready)
    && r.now.status == if result.seen && !s.now.seen then Some(0) else s.now.status
  }

  lemma WaitStep(c: Config, s: State, r: State, e: Env, w: Wait)
    requires Waits(s, r, w) && w.checks <= s.now.bound
    ensures match WaitTurn(w, s.now.bound, c.onDemand, s.pid != 0 && e.running, e.playlist, e.firstSegment)
            case Sleep(next) => Waits(s, Next(c, r, e), next)
            case Ready(seen) => Waited(s, Next(c, r, e), Result(true, seen, 0))
            case GaveUp(seen) => Waited(s, Next(c, r, e), Result(false, seen, 0))
  {
  }

  /** One step of the unrolled loop. */
  lemma WaitUnfolds(w: Wait, t: nat, bound: int, onDemand: bool, world: World)
    requires w.checks <= bound && 0 < bound
    ensures match WaitTurn(w, bound, onDemand, world.running(t), world.playlist(t), world.firstSegment(t))
            case Sleep(next) =>
              && next.checks <= bound && (w.checks >= 0 ==> next.checks >= 0) && (w.seen ==> next.seen)
              && WaitFrom(w, t, bound, onDemand, world) == WaitFrom(next, t + 1, bound, onDemand, world)
            case Ready(seen) => WaitFrom(w, t, bound, onDemand, world) == Result(true, seen, t)
            case GaveUp(seen) => WaitFrom(w, t, bound, onDemand, world) == Result(false, seen, t)
  {
  }

  /** After t turns the machine is where the loop is, with this result to come. */
  ghost predicate Going(c: Config, s: State, es: seq<Env>, world: World, w: Wait, t: nat, result: Result) {
    && t <= |es| && Waits(s, Run(c, s, es[..t]), w) && SameWorld(s, es, world) && 0 < s.now.bound
    && 0 <= w.checks <= s.now.bound && t <= result.sleeps < |es|
    && result == WaitFrom(w, t, s.now.bound, c.onDemand, world)
  }

  lemma GoesOn(c: Config, s: State, es: seq<Env>, world: World, w: Wait, t: nat, result: Result) returns (turn: Outcome)
    requires Going(c, s, es, world, w, t, result)
    ensures turn.Sleep? ==> Going(c, s, es, world, turn.next, t + 1, result)
    ensures !turn.Sleep? ==> result.sleeps == t && Waited(s, Run(c, s, es[..t + 1]), result)
  {
    WaitUnfolds(w, t, s.now.bound, c.onDemand, world);
    turn := MachineTurn(c, s, es, world, w, t);
    if turn.Sleep? { SleepsGrow(turn.next, t + 1, s.now.bound, c.onDemand, world); }
  }

  lemma {:induction false} MachineGoesOn(c: Config, s: State, es: seq<Env>, world: World, w: Wait, t: nat,
                                         result: Result)
    requires Going(c, s, es, world, w, t, result)
    ensures Waited(s, Run(c, s, es[..result.sleeps + 1]), result)
    decreases result.sleeps - t
  {
    var turn := GoesOn(c, s, es, world, w, t, result);
    if turn.Sleep? { MachineGoesOn(c, s, es, world, turn.next, t + 1, result); }
  }

  /** One turn of the machine is one turn of the loop. */
  lemma MachineTurn(c: Config, s: State, es: seq<Env>, world: World, w: Wait, t: nat) returns (turn: Outcome)
    requires t < |es| && Waits(s, Run(c, s, es[..t]), w) && SameWorld(s, es, world) && w.checks <= s.now.bound
    ensures turn == WaitTurn(w, s.now.bound, c.onDemand, world.running(t), world.playlist(t), world.firstSegment(t))
    ensures match turn
            case Sleep(next) => Waits(s, Run(c, s, es[..t + 1]), next)
            case Ready(seen) => Waited(s, Run(c, s, es[..t + 1]), Result(true, seen, t))
            case GaveUp(seen) => Waited(s, Run(c, s, es[..t + 1]), Result(false, seen, t))
  {
    var r := Run(c, s, es[..t]);
    assert es[..t + 1][..t] == es[..t];
    WaitStep(c, s, r, es[t], w);
    turn := WaitTurn(w, s.now.bound, c.onDemand, world.running(t), world.playlist(t), world.firstSegment(t));
  }

  lemma {:induction false} SleepsGrow(w: Wait, t: nat, bound: int, onDemand: bool, world: World)
    requires w.checks <= bound && 0 < bound
    ensures t <= WaitFrom(w, t, bound, onDemand, world).sleeps
    decreases if w.seen then 0 else 1, bound - w.checks
  {
    match WaitTurn(w, bound, onDemand, world.running(t), world.playlist(t), world.firstSegment(t))
    case Sleep(next) => SleepsGrow(next, t + 1, bound, onDemand, world);
    case _ =>
  }

  /**
  A started stream waits exactly as the loop does: the machine leaves label998 with the loop's last turn, having failed
  exactly if the loop was not ready, and having reported the stream as up exactly if the loop noticed a segment.
  */
  lemma MachineWaits(c: Config, s: State, es: seq<Env>, world: World)
    requires s.pc == Try(L998) && !s.now.seen && s.now.checks == 0 && 0 < s.now.bound && SameWorld(s, es, world)
    requires WaitFrom(Wait(false, 0), 0, s.now.bound, c.onDemand, world).sleeps < |es|
    ensures var result := WaitFrom(Wait(false, 0), 0, s.now.bound, c.onDemand, world);
            Waited(s, Run(c, s, es[..result.sleeps + 1]), result)
  {
    assert es[..0] == [];
    var result := WaitFrom(Wait(false, 0), 0, s.now.bound, c.onDemand, world);
    assert Waits(s, s, Wait(false, 0));
    MachineGoesOn(c, s, es, world, Wait(false, 0), 0, result);
  }
}
