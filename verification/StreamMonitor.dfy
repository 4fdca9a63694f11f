/**
The process that keeps one stream running: a machine of labels and gotos over a few counters, one database handle
and one row of the streams_servers table.  Everything the machine asks of the outside world in one turn (is the
process alive, does the file exist, which clock test fires, what did the start return) is one Env value.
*/
module StreamMonitor {
  import opened Collections

  const MONITOR_CALLS := 3

  // The labels of the watch loop, between the closing of the database connection and its reopening.
  datatype WatchLabel =
    | L592 | L195 | L884 | L1631 | L496 | L1087 | L1094 | L768 | L780 | L1047 | L1052 | L1847 | L298 | L617
    | L1095 | L1186

  // The labels of one start attempt, from the first jump out of label76 up to the one back to it.
  datatype AttemptLabel = L933 | L1 | L1512 | L1127 | L1131 | L998 | L562 | L1267 | L430 | L554

  datatype Label = Watch(w: WatchLabel) | Try(a: AttemptLabel) | L235 | L471 | L76 | Exited

  // What a start function hands back: the number 0, false, or the description of a started stream.
  datatype StartResult = Zero | False | Info(mainPid: int)

  datatype Env = Env(
    running: bool, playlist: bool, firstSegment: bool,                     // process and files
    restartDue: bool, probeDue: bool, segmentStale: bool, duration: Option<int>,
    fpsCheckDue: bool, fpsPositive: bool, fpsBaseline: bool, fpsDropped: bool,
    forceRequested: bool, forceDiffers: bool, probeOk: bool,
    fpsByProbe: bool, hasRate: bool, rateIsFraction: bool,
    audioDue: bool, hasSegment: bool, hasAudio: bool,
    refreshDue: bool, playlistChanged: bool, betterSource: bool,
    reconnects: bool, phpLoopback: bool, result: StartResult, stopFailures: int, exitOnFailure: bool)

  // The columns of the stream's row that no turn changes.
  datatype Config = Config(hasParent: bool, llod: int, onDemand: bool, created: bool)

  datatype Kind = Cacheable | Created | Llod | SourceOnly | Loopback

  // One call of a start function: in which attempt, by which call, and whether the probe cache was bypassed.
  datatype Start = Start(attempt: nat, kind: Kind, bypass: bool)

  // The counters of the whole process: every attempt begins at label76, every start call is logged.
  datatype Tries = Tries(totalCalls: int, maxFails: int, attempts: nat, starts: seq<Start>, zeroes: nat)

  // The attempt under way; status is the stream_status this process wrote last.
  datatype Attempt = Attempt(failed: bool, seen: bool, checks: int, bound: int, status: Option<int>, passed: bool)

  datatype State = State(pc: Label, connected: bool, pid: int, firstRun: bool, segmentTime: int,
                         tries: Tries, now: Attempt)

  /** The state in which the main loop is entered: a forced restart of a running stream presets the counter. */
  predicate Initial(s: State) {
    && s.pc == L235 && s.connected && s.firstRun && s.now.status.None?
    && s.tries == Tries(s.tries.totalCalls, 0, 0, [], 0)
    && (s.tries.totalCalls == 0 || (s.tries.totalCalls == MONITOR_CALLS && s.pid == 0))
  }

  predicate Forced(s: State) { s.tries.totalCalls == MONITOR_CALLS }

  /** How the process comes to its main loop: with the stream found running, and perhaps told to restart it. */
  function Entered(pid: int, segmentTime: int, running: bool, restart: bool): State {
    var forced := pid != 0 && running && restart;
    State(L235, true, if forced then 0 else pid, true, segmentTime,
          Tries(if forced then MONITOR_CALLS else 0, 0, 0, [], 0), Attempt(false, false, 0, 0, None, false))
  }

  /** A forced restart of a running stream, and nothing else, presets the counter, and then the process id is gone. */
  lemma EnteredIsInitial(pid: int, segmentTime: int, running: bool, restart: bool)
    ensures var s := Entered(pid, segmentTime, running, restart);
            && Initial(s) && s.tries.starts == [] && s.tries.attempts == 0
            && (Forced(s) <==> pid != 0 && running && restart)
            && s.tries.totalCalls == (if Forced(s) then 3 else 0) && s.pid == (if Forced(s) then 0 else pid)
  {
  }

  // ---------------------------------------------------------------- the wait for a playlist

  datatype Wait = Wait(seen: bool, checks: int)
  datatype Outcome = Sleep(next: Wait) | Ready(seen: bool) | GaveUp(seen: bool)

  function Bound(segmentTime: int): int {
    var b := if segmentTime * 3 <= 30 then segmentTime * 3 else 30;
    if b < 20 then 20 else b
  }

  /** One turn of the wait loop; the first segment of an on-demand stream restarts the count once. */
  function WaitTurn(w: Wait, bound: int, onDemand: bool, running: bool, playlist: bool, firstSegment: bool): Outcome {
    if !running then GaveUp(w.seen)
    else if playlist then Ready(w.seen)
    else
      var v := if firstSegment && !w.seen && onDemand then Wait(true, 0) else w;
      if v.checks == bound then GaveUp(v.seen) else Sleep(v.(checks := v.checks + 1))
  }

  // ---------------------------------------------------------------- the machine

  /** A probe result longer than the segment time raises it, up to ten seconds. */
  function Raised(segmentTime: int, duration: Option<int>): int {
    if duration.None? then segmentTime
    else
      var d := if 10 < duration.value then 10 else duration.value;
      if segmentTime < d then d else segmentTime
  }

  function Logged(t: Tries, kind: Kind, bypass: bool): Tries {
    t.(starts := t.starts + [Start(t.attempts, kind, bypass)])
  }

  /** An empty process id is never running. */
  predicate Alive(s: State, e: Env) { s.pid != 0 && e.running }

  /** Where the watch loop jumps next; label1186 leaves it. */
  function WatchGoto(l: WatchLabel, alive: bool, e: Env): WatchLabel {
    match l
    case L592 => if alive && e.playlist && !e.restartDue then L195 else L1186
    case L195 =>
      if e.probeDue && e.hasSegment && e.segmentStale then L1186
      else if !e.fpsCheckDue then L298
      else if !e.fpsPositive then L1847
      else if !e.fpsBaseline then L1087
      else if !e.fpsDropped then L1847
      else L1186
    case L1087 => if e.fpsByProbe then L1094 else L1847
    case L1094 => if e.hasSegment && e.hasRate then L768 else L1847
    case L768 => if e.rateIsFraction then L780 else L1052
    case L780 => L1047
    case L1047 => L1052
    case L1052 => L1847
    case L1847 => L298
    case L298 => if !e.audioDue || (e.hasSegment && e.hasAudio) then L617 else L1186
    case L617 => if e.refreshDue && !e.playlistChanged then L1186 else L1095
    case L1095 => if e.betterSource then L1186 else L496
    case L884 => if e.probeOk then L1186 else L1631
    case L1631 => L496
    case L496 => if !e.forceRequested then L592 else if e.forceDiffers then L884 else L1631
    case L1186 => L1186
  }

  function NextWatching(s: State, w: WatchLabel, e: Env): State {
    if w == L1186 then
      if e.reconnects then s.(connected := true, pc := L471) else s.(pc := Exited)
    else
      s.(pc := Watch(WatchGoto(w, Alive(s, e), e)),
         segmentTime := if w == L195 && e.probeDue && e.hasSegment && !e.segmentStale
                        then Raised(s.segmentTime, e.duration)
                        else s.segmentTime)
  }

  /** One attempt begins: label76 once the stream is known to be down. */
  function BeginAttempt(c: Config, s: State, e: Env): State {
    var t := s.tries.(totalCalls := s.tries.totalCalls + 1, attempts := s.tries.attempts + 1);
    var b := s.(now := s.now.(failed := false));
    if c.hasParent && e.phpLoopback then b.(tries := t, pc := Try(L1127))
    else if 0 < c.llod && c.onDemand && s.firstRun then b.(tries := t, pc := Try(L933))
    else if c.created then b.(tries := Logged(t, Created, true), pc := Try(L933))
    else b.(tries := Logged(t, Cacheable, !(t.totalCalls < MONITOR_CALLS)), pc := Try(L1131))
  }

  /** label1131: look at what the start function returned. */
  function StartReturned(s: State, e: Env): State {
    var zero := e.result.Zero?;
    var t := if zero then s.tries.(maxFails := s.tries.maxFails + 1, zeroes := s.tries.zeroes + 1) else s.tries;
    var failed := zero || s.now.failed;
    if (zero && 0 < e.stopFailures && t.maxFails == e.stopFailures) || !e.result.Info? then
      s.(tries := t, now := s.now.(failed := failed), pc := Exited)
    else if failed then s.(tries := t, pc := Try(L562))
    else s.(pid := e.result.mainPid,
              now := s.now.(seen := false, checks := 0, bound := Bound(s.segmentTime)), pc := Try(L998))
  }

  /** label998: one turn of the wait loop. */
  function WaitForPlaylist(c: Config, s: State, e: Env): State {
    var a := s.now;
    match WaitTurn(Wait(a.seen, a.checks), a.bound, c.onDemand, Alive(s, e), e.playlist, e.firstSegment)
    case Sleep(w) => s.(now := Noticed(a, w.seen).(checks := w.checks))
    case Ready(_) => s.(pc := Try(L562))
    case GaveUp(seen) => s.(now := Noticed(a, seen).(failed := true), pc := Try(L562))
  }

  /** The turn that first sees a segment reports the stream as up. */
  function Noticed(a: Attempt, seen: bool): Attempt {
    a.(seen := seen, status := if seen && !a.seen then Some(0) else a.status)
  }

  /** label562: the verdict on the attempt. */
  function Judge(c: Config, s: State, e: Env): State {
    if Alive(s, e) && !s.now.failed then s.(now := s.now.(passed := true), pc := Try(L1267))
    else s.(now := s.now.(passed := false, status := Some(1)),
              pc := if e.exitOnFailure && c.onDemand then Exited else Try(L554))
  }

  function NextInAttempt(c: Config, s: State, l: AttemptLabel, e: Env): State {
    match l
    case L933 => s.(pc := Try(if c.llod == 1 then L1512 else L1))
    case L1 => s.(tries := Logged(s.tries, Llod, true), pc := Try(L1131))
    case L1512 => s.(tries := Logged(s.tries, SourceOnly, true), pc := Try(L1131))
    case L1127 => s.(tries := Logged(s.tries, Loopback, true), pc := Try(L1131))
    case L1131 => StartReturned(s, e)
    case L998 => WaitForPlaylist(c, s, e)
    case L562 => Judge(c, s, e)
    case L1267 => s.(firstRun := false, segmentTime := Raised(s.segmentTime, e.duration), pc := Try(L430))
    case L430 => s.(now := s.now.(status := Some(0)), pc := Try(L554))
    case L554 =>
      s.(tries := s.tries.(totalCalls := if MONITOR_CALLS <= s.tries.totalCalls then 0 else s.tries.totalCalls),
        pc := L76)
  }

  function Next(c: Config, s: State, e: Env): State {
    match s.pc
    case Watch(w) => NextWatching(s, w, e)
    case Try(l) => NextInAttempt(c, s, l, e)
    case L235 => if 0 < s.pid then s.(connected := false, pc := Watch(L592)) else s.(pc := L471)
    case L471 => s.(pc := L76)
    case L76 => if Alive(s, e) then s.(pc := L235) else BeginAttempt(c, s, e)
    case Exited => s
  }

  /** The labels whose code may query the database or call a start function, which queries it too. */
  predicate UsesDatabase(l: Label) {
    l in {L76, Try(L1), Try(L1512), Try(L1127), Try(L998), Try(L562), Try(L430)}
  }

  function Run(c: Config, s: State, es: seq<Env>): State {
    if es == [] then s else Next(c, Run(c, s, es[..|es| - 1]), es[|es| - 1])
  }

  // ---------------------------------------------------------------- invariants

  /** The counter, from the number of attempts alone; forced says that the run began with a preset counter. */
  predicate CounterOk(l: Label, t: Tries, forced: bool) {
    if forced && t.attempts == 0 then t.totalCalls == MONITOR_CALLS && !l.Try?
    else if forced && l.Try? then t.totalCalls == (if t.attempts == 1 then 4 else (t.attempts - 2) % 3 + 1)
    else if forced then t.totalCalls == (t.attempts - 1) % 3
    else if l.Try? then t.attempts > 0 && t.totalCalls == (t.attempts - 1) % 3 + 1
    else t.totalCalls == t.attempts % 3
  }

  /** Exactly every third attempt, the first one of a forced run included, bypasses the probe cache. */
  predicate StartOk(x: Start, forced: bool) {
    x.bypass <==> x.kind != Cacheable || x.attempt % 3 == if forced then 1 else 0
  }

  predicate Typestate(s: State) {
    s.pc != Exited ==> (s.connected <==> !s.pc.Watch?)
  }

  predicate Counting(s: State, forced: bool) {
    s.pc != Exited ==> CounterOk(s.pc, s.tries, forced)
  }

  predicate StartsOk(s: State, forced: bool) {
    forall i :: 0 <= i < |s.tries.starts| ==> StartOk(s.tries.starts[i], forced)
  }

  predicate NoFailedStartYet(s: State) {
    && s.tries.zeroes == s.tries.maxFails <= 1
    && (s.pc != Exited ==> s.tries.zeroes == 0)
    && (s.pc.Try? && s.pc.a != L562 && s.pc.a != L554 ==> !s.now.failed)
  }

  predicate Waiting(s: State) {
    && (s.pc == Try(L998) || s.pc == Try(L562) ==> 20 <= s.now.bound <= 30)
    && (s.pc == Try(L998) ==> 0 <= s.now.checks <= s.now.bound)
  }

  predicate Verdict(s: State) {
    && (s.pc == Try(L1267) || s.pc == Try(L430) ==> s.now.passed && !s.now.failed)
    && (s.pc == Try(L554) ==> s.now.status == Some(if s.now.passed then 0 else 1) && (s.now.failed ==> !s.now.passed))
  }

  predicate Inv(s: State, forced: bool) {
    Typestate(s) && Counting(s, forced) && StartsOk(s, forced) && NoFailedStartYet(s) && Waiting(s) && Verdict(s)
  }

  // ---------------------------------------------------------------- every turn keeps them

  lemma KeptWatching(s: State, w: WatchLabel, e: Env, forced: bool)
    requires Inv(s, forced) && s.pc == Watch(w)
    ensures Inv(NextWatching(s, w, e), forced)
  {
  }

  lemma KeptBegin(c: Config, s: State, e: Env, forced: bool)
    requires Inv(s, forced) && s.pc == L76
    ensures Inv(BeginAttempt(c, s, e), forced)
  {
  }

  lemma KeptReturned(s: State, e: Env, forced: bool)
    requires Inv(s, forced) && s.pc == Try(L1131)
    ensures Inv(StartReturned(s, e), forced)
  {
  }

  lemma KeptWait(c: Config, s: State, e: Env, forced: bool)
    requires Inv(s, forced) && s.pc == Try(L998)
    ensures Inv(WaitForPlaylist(c, s, e), forced)
  {
  }

  lemma KeptJudge(c: Config, s: State, e: Env, forced: bool)
    requires Inv(s, forced) && s.pc == Try(L562)
    ensures Inv(Judge(c, s, e), forced)
  {
  }

  lemma KeptStarting(c: Config, s: State, l: AttemptLabel, e: Env, forced: bool)
    requires Inv(s, forced) && s.pc == Try(l) && (l == L933 || l == L1 || l == L1512 || l == L1127)
    ensures Inv(NextInAttempt(c, s, l, e), forced)
  {
  }

  lemma KeptFinishing(c: Config, s: State, l: AttemptLabel, e: Env, forced: bool)
    requires Inv(s, forced) && s.pc == Try(l) && (l == L1267 || l == L430 || l == L554)
    ensures Inv(NextInAttempt(c, s, l, e), forced)
  {
  }

  lemma NextKeeps(c: Config, s: State, e: Env, forced: bool)
    requires Inv(s, forced)
    ensures Inv(Next(c, s, e), forced)
  {
    match s.pc
    case Watch(w) => KeptWatching(s, w, e, forced);
    case Try(l) =>
      if l == L1131 { KeptReturned(s, e, forced); }
      else if l == L998 { KeptWait(c, s, e, forced); }
      else if l == L562 { KeptJudge(c, s, e, forced); }
      else if l == L1267 || l == L430 || l == L554 { KeptFinishing(c, s, l, e, forced); }
      else { KeptStarting(c, s, l, e, forced); }
    case L76 => KeptBegin(c, s, e, forced);
    case _ =>
  }

  lemma {:induction false} RunKeeps(c: Config, s: State, es: seq<Env>)
    requires Initial(s)
    ensures Inv(Run(c, s, es), Forced(s))
  {
    if es != [] {
      RunKeeps(c, s, es[..|es| - 1]);
      NextKeeps(c, Run(c, s, es[..|es| - 1]), es[|es| - 1], Forced(s));
    }
  }

  /** The way round: with a process a stream is watched, without one it is started, and a live one not again. */
  lemma WhereToGo(c: Config, s: State, e: Env)
    ensures s.pc == L235 && s.pid > 0 ==> Next(c, s, e).pc == Watch(L592) && !Next(c, s, e).connected
    ensures s.pc == L235 && s.pid <= 0 ==> Next(c, s, e) == s.(pc := L471)
    ensures s.pc == L471 ==> Next(c, s, e) == s.(pc := L76)
    ensures s.pc == L76 && s.pid != 0 && e.running ==> Next(c, s, e) == s.(pc := L235)
    ensures s.pc == L76 && !(s.pid != 0 && e.running) ==>
              Next(c, s, e).pc.Try? && !Next(c, s, e).now.failed && Next(c, s, e).tries.attempts == s.tries.attempts + 1
    ensures Next(c, s, e).firstRun <==> s.firstRun && s.pc != Try(L1267)
  {
  }

  // ---------------------------------------------------------------- what follows for every run

  /**
  The database connection is open wherever the code can query it or start a stream, closed at every label of the watch
  loop, and open again before the machine is anywhere else.
  */
  lemma DatabaseDiscipline(c: Config, s: State, es: seq<Env>, e: Env)
    requires Initial(s)
    ensures var r := Run(c, s, es);
            && (UsesDatabase(r.pc) ==> r.connected)
            && (r.pc.Watch? ==> !r.connected)
            && (r.pc.Watch? && !Next(c, r, e).pc.Watch? ==>
                  r.pc.w == L1186
                  && Next(c, r, e).pc == (if e.reconnects then L471 else Exited)
                  && (e.reconnects ==> Next(c, r, e).connected))
  {
    RunKeeps(c, s, es);
    NextKeeps(c, Run(c, s, es), e, Forced(s));
  }

  /** Only a cacheable start can use the probe cache, and it bypasses it exactly at every third attempt. */
  lemma CacheRhythm(c: Config, s: State, es: seq<Env>, i: nat)
    requires Initial(s) && i < |Run(c, s, es).tries.starts|
    ensures var x := Run(c, s, es).tries.starts[i];
            x.bypass <==> x.kind != Cacheable || x.attempt % 3 == if Forced(s) then 1 else 0
  {
    RunKeeps(c, s, es);
  }

  /** The restart counter stays below the limit whenever an attempt is about to begin; only a preset one is at it. */
  lemma CounterBelowLimit(c: Config, s: State, es: seq<Env>)
    requires Initial(s) && Run(c, s, es).pc == L76
    ensures var t := Run(c, s, es).tries; t.totalCalls < MONITOR_CALLS || (Forced(s) && t.attempts == 0)
  {
    RunKeeps(c, s, es);
  }

  /**
  A start that returns 0 is the last thing the process does: at most one ever happens, the jump over the wait loop after
  a failed start is dead code, and the process goes on only with a started stream.
  */
  lemma FirstZeroIsLast(c: Config, s: State, es: seq<Env>, e: Env)
    requires Initial(s)
    ensures var r := Run(c, s, es);
            && r.tries.zeroes <= 1 && (r.tries.zeroes == 1 ==> r.pc == Exited)
            && (r.pc == Try(L1131) ==> Next(c, r, e).pc != Try(L562))
            && (r.pc == Try(L1131) ==> (Next(c, r, e).pc == Exited <==> !e.result.Info?))
            && (r.pc == Try(L1131) && e.result.Zero? ==> Next(c, r, e).tries.zeroes == 1 && Next(c, r, e).now.failed)
            && (r.pc == Try(L1131) && !e.result.Zero? ==> Next(c, r, e).tries == r.tries)
            && (r.pc == Try(L1131) && e.result.Info? ==>
                  Next(c, r, e).pc == Try(L998) && Next(c, r, e).pid == e.result.mainPid
                  && !Next(c, r, e).now.seen && Next(c, r, e).now.checks == 0)
  {
    RunKeeps(c, s, es);
  }

  predicate SameButLimit(es: seq<Env>, fs: seq<Env>) {
    |es| == |fs| && forall i :: 0 <= i < |es| ==> fs[i] == es[i].(stopFailures := fs[i].stopFailures)
  }

  /**
  So the configured number of tolerated failures, whatever it is and however it changes, makes no difference to
  any run.
  */
  lemma {:induction false} FailureLimitIsIrrelevant(c: Config, s: State, es: seq<Env>, fs: seq<Env>)
    requires SameButLimit(es, fs)
    ensures Run(c, s, es) == Run(c, s, fs)
  {
    if es != [] {
      var n := |es| - 1;
      assert SameButLimit(es[..n], fs[..n]);
      FailureLimitIsIrrelevant(c, s, es[..n], fs[..n]);
      assert fs[n] == es[n].(stopFailures := fs[n].stopFailures);
      LimitIsIgnored(c, Run(c, s, es[..n]), es[n], fs[n].stopFailures);
    }
  }

  lemma LimitIsIgnored(c: Config, s: State, e: Env, limit: int)
    ensures Next(c, s, e.(stopFailures := limit)) == Next(c, s, e)
  {
    var f := e.(stopFailures := limit);
    match s.pc
    case Watch(w) => assert WatchGoto(w, Alive(s, f), f) == WatchGoto(w, Alive(s, e), e);
    case Try(l) => LimitIsIgnoredInAttempt(c, s, l, e, limit);
    case L76 => assert BeginAttempt(c, s, f) == BeginAttempt(c, s, e);
    case _ =>
  }

  lemma LimitIsIgnoredInAttempt(c: Config, s: State, l: AttemptLabel, e: Env, limit: int)
    ensures NextInAttempt(c, s, l, e.(stopFailures := limit)) == NextInAttempt(c, s, l, e)
  {
    var f := e.(stopFailures := limit);
    if l == L1131 { LimitIsIgnoredOnReturn(s, e, limit); }
    else if l == L998 { assert WaitForPlaylist(c, s, f) == WaitForPlaylist(c, s, e); }
    else if l == L562 { assert Judge(c, s, f) == Judge(c, s, e); }
    else if l == L1267 { assert f.duration == e.duration; }
  }

  lemma LimitIsIgnoredOnReturn(s: State, e: Env, limit: int)
    ensures StartReturned(s, e.(stopFailures := limit)) == StartReturned(s, e)
  {
  }

  /** The row says 0 or 1 when an attempt is over, and it says 1 exactly if the attempt was judged a failure. */
  lemma StatusIsVerdict(c: Config, s: State, es: seq<Env>)
    requires Initial(s) && Run(c, s, es).pc == Try(L554)
    ensures var a := Run(c, s, es).now;
            && a.status == Some(if a.passed then 0 else 1)
            && (a.failed ==> a.status == Some(1))
  {
    RunKeeps(c, s, es);
  }

  /**
  From the verdict on: a live stream that did not fail is at label554 two turns later with status 0, any other
  has status 1.
  */
  lemma JudgedThenReported(c: Config, s: State, e1: Env, e2: Env, e3: Env)
    requires s.pc == Try(L562)
    ensures var s1 := Next(c, s, e1); var s3 := Next(c, Next(c, s1, e2), e3);
            if Alive(s, e1) && !s.now.failed then s3.pc == Try(L554) && s3.now.status == Some(0)
            else s1.now.status == Some(1) && (s1.pc == Try(L554) || (s1.pc == Exited && c.onDemand))
  {
  }

  /** The segment time never decreases, so neither does the bound of the wait loop, which stays between 20 and 30. */
  lemma BoundGrows(c: Config, s: State, e: Env)
    ensures s.segmentTime <= Next(c, s, e).segmentTime
    ensures 20 <= Bound(s.segmentTime) <= Bound(Next(c, s, e).segmentTime) <= 30
  {
  }

  /** The bound is three times the segment time, but at least 20 and at most 30. */
  lemma BoundIs(segmentTime: int)
    ensures 20 <= 3 * segmentTime <= 30 ==> Bound(segmentTime) == 3 * segmentTime
    ensures 3 * segmentTime < 20 ==> Bound(segmentTime) == 20
    ensures 3 * segmentTime > 30 ==> Bound(segmentTime) == 30
  {
  }

  /** A probe is heard at label1267, and at label195 if one is due and its segment is not stale. */
  lemma SegmentTimeIs(c: Config, s: State, e: Env)
    ensures var t, n := s.segmentTime, Next(c, s, e).segmentTime;
            var heard := (s.pc == Watch(L195) && e.probeDue && e.hasSegment && !e.segmentStale) || s.pc == Try(L1267);
            && (!heard || e.duration.None? ==> n == t)
            && (heard && e.duration.Some? ==>
                  && n >= t && (e.duration.value <= 10 ==> n >= e.duration.value) && (e.duration.value > 10 ==> n >= 10)
                  && (n == t || (n == e.duration.value && n <= 10) || (n == 10 && e.duration.value > 10)))
  {
  }

  lemma {:induction false} BoundGrowsOverRuns(c: Config, s: State, es: seq<Env>, more: seq<Env>)
    ensures Bound(Run(c, s, es).segmentTime) <= Bound(Run(c, s, es + more).segmentTime)
  {
    if more == [] {
      assert es + more == es;
    } else {
      var last := |more| - 1;
      assert (es + more)[..|es + more| - 1] == es + more[..last];
      BoundGrowsOverRuns(c, s, es, more[..last]);
      BoundGrows(c, Run(c, s, es + more[..last]), more[last]);
    }
  }
}
