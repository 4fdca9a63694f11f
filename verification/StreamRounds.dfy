/** The watch loop of the stream monitor: what one round of it decides. */
module StreamRounds {
  import opened StreamMonitor

  // What the outside world answers when a label of the watch loop is reached; each is reached once a round, but for
  // label496, which is reached again when a force file has been removed.
  type Answers = WatchLabel -> Env

  /** The label at which the k-th turn is taken, if the machine is in the watch loop then. */
  predicate WatchingAt(c: Config, s: State, es: seq<Env>, k: nat, l: WatchLabel)
    requires k <= |es|
  {
    Run(c, s, es[..k]).pc == Watch(l)
  }

  /** A force file was removed in the turn before the k-th. */
  predicate JustRemoved(c: Config, s: State, es: seq<Env>, k: nat)
    requires k <= |es|
  {
    k > 0 && WatchingAt(c, s, es, k - 1, L1631)
  }

  /** Every turn finds what the world answers at its label; but a force file that has just been removed is gone. */
  ghost predicate Finds(c: Config, s: State, es: seq<Env>, world: Answers) {
    forall k, l :: 0 <= k < |es| && WatchingAt(c, s, es, k, l) ==>
                     if JustRemoved(c, s, es, k) then !es[k].forceRequested else es[k] == world(l)
  }

  // The causes for leaving the watch loop, each at its own label.

  predicate Down(pid: int, e: Env) { pid == 0 || !e.running || !e.playlist || e.restartDue }

  predicate StaleOrSlow(e: Env) {
    || (e.probeDue && e.hasSegment && e.segmentStale)
    || (e.fpsCheckDue && e.fpsPositive && e.fpsBaseline && e.fpsDropped)
  }

  predicate Silent(e: Env) { e.audioDue && (!e.hasSegment || !e.hasAudio) }

  predicate Stuck(e: Env) { e.refreshDue && !e.playlistChanged }

  predicate ForcedElsewhere(world: Answers) {
    world(L496).forceRequested && world(L496).forceDiffers && world(L884).probeOk
  }

  /** Everything that makes a round end outside the loop. */
  predicate MustLeave(pid: int, world: Answers) {
    || Down(pid, world(L592))
    || StaleOrSlow(world(L195))
    || Silent(world(L298))
    || Stuck(world(L617))
    || world(L1095).betterSource
    || ForcedElsewhere(world)
  }

  /** The part of it that is still to come at a label. */
  predicate LeavesFrom(l: WatchLabel, pid: int, world: Answers) {
    match l
    case L592 => MustLeave(pid, world)
    case L195 => StaleOrSlow(world(L195)) || FromAudioOn(world)
    case L617 => Stuck(world(L617)) || world(L1095).betterSource || ForcedElsewhere(world)
    case L1095 => world(L1095).betterSource || ForcedElsewhere(world)
    case L496 => ForcedElsewhere(world)
    case L884 => world(L884).probeOk
    case L1631 => false
    case L1186 => true
    case _ => FromAudioOn(world)
  }

  predicate FromAudioOn(world: Answers) {
    Silent(world(L298)) || Stuck(world(L617)) || world(L1095).betterSource || ForcedElsewhere(world)
  }

  /** How many turns a round has left at most. */
  function RoundTurns(l: WatchLabel): nat {
    match l
    case L592 => 16
    case L195 => 15
    case L1087 => 14
    case L1094 => 13
    case L768 => 12
    case L780 => 11
    case L1047 => 10
    case L1052 => 9
    case L1847 => 8
    case L298 => 7
    case L617 => 6
    case L1095 => 5
    case L496 => 4
    case L884 => 3
    case L1631 => 2
    case L1186 => 0
  }

  /** A turn of the loop: one nearer to the end of the round, with the same causes still to come. */
  lemma WatchTurn(s: State, w: WatchLabel, e: Env, world: Answers)
    requires s.pc == Watch(w) && w != L1186 && w != L592 && w != L1631 && e == world(w)
    requires w == L884 ==> world(L496).forceRequested && world(L496).forceDiffers
    ensures var t := NextWatching(s, w, e);
            && t.pc.Watch? && t.pid == s.pid
            && (t.pc.w == L592 ==> !LeavesFrom(w, s.pid, world))
            && (t.pc.w == L1186 ==> LeavesFrom(w, s.pid, world))
            && (t.pc.w != L592 && t.pc.w != L1186 ==>
                  && RoundTurns(t.pc.w) < RoundTurns(w)
                  && (LeavesFrom(t.pc.w, s.pid, world) <==> LeavesFrom(w, s.pid, world)))
            && (t.pc.w == L884 ==> world(L496).forceRequested && world(L496).forceDiffers)
  {
  }

  /** The machine comes round to label592, or goes to label1186, at the j-th turn and not before. */
  predicate RoundEndsAt(c: Config, s: State, es: seq<Env>, k: nat, j: nat)
    requires k <= |es| && j <= |es|
  {
    && k < j && (WatchingAt(c, s, es, j, L592) || WatchingAt(c, s, es, j, L1186))
    && forall i :: k < i < j ==>
                     && Run(c, s, es[..i]).pc.Watch?
                     && !WatchingAt(c, s, es, i, L592) && !WatchingAt(c, s, es, i, L1186)
  }
  /** The label a turn later, if the world answers. */
  function Then(l: WatchLabel, alive: bool, world: Answers): WatchLabel { WatchGoto(l, alive, world(l)) }

  /** A rate is divided exactly if it is measured by a probe, the probe finds one and it is a fraction. */
  lemma RateIsDivided(alive: bool, world: Answers)
    ensures var l1 := Then(L1087, alive, world);
            var l2 := Then(l1, alive, world);
            var l3 := Then(l2, alive, world);
            var l4 := Then(l3, alive, world);
            var l5 := Then(l4, alive, world);
            var probed := world(L1087).fpsByProbe && world(L1094).hasSegment && world(L1094).hasRate;
            && (l1 == L1094 <==> world(L1087).fpsByProbe)
            && (l2 == L768 <==> probed)
            && (l3 == L780 <==> probed && world(L768).rateIsFraction)
            && (l3 == L1052 || l5 == L1052 <==> probed)
  {
  }

  lemma Runs(c: Config, s: State, es: seq<Env>, k: nat)
    requires k < |es|
    ensures Run(c, s, es[..k + 1]) == Next(c, Run(c, s, es[..k]), es[k])
  {
    assert es[..k + 1][..k] == es[..k];
  }

  lemma RoundTurn(c: Config, s: State, es: seq<Env>, world: Answers, k: nat, w: WatchLabel) returns (next: WatchLabel)
    requires k < |es| && es[k] == world(w) && WatchingAt(c, s, es, k, w) && w != L592 && w != L1186 && w != L1631
    requires w == L884 ==> world(L496).forceRequested && world(L496).forceDiffers
    ensures WatchingAt(c, s, es, k + 1, next) && !JustRemoved(c, s, es, k + 1)
    ensures Run(c, s, es[..k + 1]).pid == Run(c, s, es[..k]).pid
    ensures next == L592 ==> !LeavesFrom(w, Run(c, s, es[..k]).pid, world)
    ensures next == L1186 ==> LeavesFrom(w, Run(c, s, es[..k]).pid, world)
    ensures next != L592 && next != L1186 ==>
              && RoundTurns(next) < RoundTurns(w)
              && (LeavesFrom(next, Run(c, s, es[..k]).pid, world) <==> LeavesFrom(w, Run(c, s, es[..k]).pid, world))
    ensures next == L884 ==> world(L496).forceRequested && world(L496).forceDiffers
  {
    var r := Run(c, s, es[..k]);
    Runs(c, s, es, k);
    WatchTurn(r, w, es[k], world);
    next := NextWatching(r, w, es[k]).pc.w;
  }

  /** A removed force file is not found again, so the round is over two turns later. */
  lemma RemovedRoundEnds(c: Config, s: State, es: seq<Env>, world: Answers, k: nat)
    requires k + 2 <= |es| && Finds(c, s, es, world) && WatchingAt(c, s, es, k, L1631)
    ensures RoundEndsAt(c, s, es, k, k + 2) && !WatchingAt(c, s, es, k + 2, L1186)
  {
    Runs(c, s, es, k);
    Runs(c, s, es, k + 1);
    assert WatchingAt(c, s, es, k + 1, L496) && JustRemoved(c, s, es, k + 1);
  }

  lemma RoundEndsLater(c: Config, s: State, es: seq<Env>, k: nat, j: nat, w: WatchLabel)
    requires k < |es| && j <= |es| && RoundEndsAt(c, s, es, k + 1, j)
    requires WatchingAt(c, s, es, k + 1, w) && w != L592 && w != L1186
    ensures RoundEndsAt(c, s, es, k, j)
  {
  }

  lemma {:induction false} RoundGoesOn(c: Config, s: State, es: seq<Env>, world: Answers, k: nat, w: WatchLabel)
      returns (j: nat)
    requires k <= |es| && Finds(c, s, es, world) && !JustRemoved(c, s, es, k)
    requires WatchingAt(c, s, es, k, w) && w != L592 && w != L1186 && RoundTurns(w) <= |es| - k
    requires w == L884 ==> world(L496).forceRequested && world(L496).forceDiffers
    ensures j <= |es| && RoundEndsAt(c, s, es, k, j)
    ensures WatchingAt(c, s, es, j, L1186) <==> LeavesFrom(w, Run(c, s, es[..k]).pid, world)
    decreases RoundTurns(w)
  {
    if w == L1631 {
      RemovedRoundEnds(c, s, es, world, k);
      j := k + 2;
    } else {
      var next := RoundTurn(c, s, es, world, k, w);
      if next == L592 || next == L1186 {
        j := k + 1;
      } else {
        j := RoundGoesOn(c, s, es, world, k + 1, next);
        RoundEndsLater(c, s, es, k, j, next);
      }
    }
  }

  /**
  One round of the watch loop takes at most 16 turns.  It leaves the loop if and only if the stream is down or due for a
  restart, its segments are stale or its frame rate has dropped, its audio is lost, its playlist no longer changes, a
  better source answers, or another source is forced and answers; otherwise it comes back to label592.
  */
  lemma RoundEnds(c: Config, s: State, es: seq<Env>, world: Answers) returns (j: nat)
    requires s.pc == Watch(L592) && |es| == 16 && Finds(c, s, es, world)
    ensures j <= 16 && RoundEndsAt(c, s, es, 0, j)
    ensures WatchingAt(c, s, es, j, L1186) <==>
              || s.pid == 0 || !world(L592).running || !world(L592).playlist || world(L592).restartDue
              || (world(L195).probeDue && world(L195).hasSegment && world(L195).segmentStale)
              || (world(L195).fpsCheckDue && world(L195).fpsPositive && world(L195).fpsBaseline
                  && world(L195).fpsDropped)
              || (world(L298).audioDue && !(world(L298).hasSegment && world(L298).hasAudio))
              || (world(L617).refreshDue && !world(L617).playlistChanged)
              || world(L1095).betterSource
              || (world(L496).forceRequested && world(L496).forceDiffers && world(L884).probeOk)
  {
    RoundBegins(c, s, es, world);
    if Down(s.pid, es[0]) {
      j := 1;
    } else {
      j := RoundGoesOn(c, s, es, world, 1, L195);
      RoundEndsLater(c, s, es, 0, j, L195);
    }
  }

  lemma RoundBegins(c: Config, s: State, es: seq<Env>, world: Answers)
    requires s.pc == Watch(L592) && es != [] && Finds(c, s, es, world)
    ensures es[0] == world(L592) && !JustRemoved(c, s, es, 1)
    ensures Run(c, s, es[..1]).pid == s.pid
    ensures WatchingAt(c, s, es, 1, if Down(s.pid, es[0]) then L1186 else L195)
  {
    assert es[..0] == [] && WatchingAt(c, s, es, 0, L592);
    Runs(c, s, es, 0);
  }
}
