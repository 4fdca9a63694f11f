/** One start attempt of the stream monitor: how many start calls it makes and how long it takes. */
module StreamAttempts {
  import opened StreamMonitor

  // ---------------------------------------------------------------- how many start calls an attempt makes

  /** The attempt falls into the block of created channels, which has the label of low-latency streams inside it. */
  predicate EntersCreatedBlock(c: Config, s: State, e: Env) {
    c.created && !(c.hasParent && e.phpLoopback) && !(0 < c.llod && c.onDemand && s.firstRun)
  }

  /** The state in which the attempt first looks at what a start returned; it takes one to three turns. */
  function AtReturn(c: Config, s: State, e1: Env, e2: Env, e3: Env): State {
    var a := Next(c, s, e1);
    if a.pc == Try(L1131) then a
    else
      var b := Next(c, a, e2);
      if b.pc == Try(L1131) then b else Next(c, b, e3)
  }

  /** One or more calls of one attempt have been logged. */
  predicate Calls(before: Tries, after: Tries, n: nat) {
    && before.starts <= after.starts && |after.starts| == |before.starts| + n
    && forall i :: |before.starts| <= i < |after.starts| ==> after.starts[i].attempt == after.attempts
  }

  lemma BlockEntered(c: Config, s: State, e: Env)
    requires s.pc == L76 && !Alive(s, e)
    ensures var a := Next(c, s, e);
            && a.tries.attempts == s.tries.attempts + 1
            && match a.pc {
                 case Try(L1131) => !EntersCreatedBlock(c, s, e) && Calls(s.tries, a.tries, 1)
                 case Try(L1127) => !EntersCreatedBlock(c, s, e) && Calls(s.tries, a.tries, 0)
                 case _ => a.pc == Try(L933) && Calls(s.tries, a.tries, if EntersCreatedBlock(c, s, e) then 1 else 0)
               }
  {
  }

  lemma SecondCall(c: Config, s: State, e1: Env, e2: Env)
    requires s.pc == Try(L933) || s.pc == Try(L1127)
    ensures var a := Next(c, s, e1); var r := if s.pc.a == L1127 then a else Next(c, a, e2);
            && (s.pc.a == L933 ==> a.pc != Try(L1131))
            && r.pc == Try(L1131) && r.tries.attempts == s.tries.attempts && Calls(s.tries, r.tries, 1)
  {
  }

  /**
  An attempt makes two start calls, throwing the result of the first one away, if and only if it enters the block of
  created channels; every other attempt makes exactly one.
  */
  lemma CreatedStartsTwiceIff(c: Config, s: State, e1: Env, e2: Env, e3: Env)
    requires s.pc == L76 && !Alive(s, e1)
    ensures var r := AtReturn(c, s, e1, e2, e3);
            && r.pc == Try(L1131) && r.tries.attempts == s.tries.attempts + 1
            && Calls(s.tries, r.tries, if EntersCreatedBlock(c, s, e1) then 2 else 1)
  {
    var a := Next(c, s, e1);
    BlockEntered(c, s, e1);
    if a.pc != Try(L1131) { SecondCall(c, a, e2, e3); }
  }

  /** The kinds of start call that attempt n made, in order. */
  function CallsIn(starts: seq<Start>, n: nat): seq<Kind> {
    if starts == [] then []
    else
      var last := starts[|starts| - 1];
      CallsIn(starts[..|starts| - 1], n) + (if last.attempt == n then [last.kind] else [])
  }

  /** One call, or two of which the first is for a created channel and the second is a low-latency one. */
  predicate Complete(c: Config, kinds: seq<Kind>) {
    || (|kinds| == 1 && kinds[0] != Created)
    || (|kinds| == 2 && kinds[0] == Created && c.created && kinds[1] == if c.llod == 1 then SourceOnly else Llod)
  }

  /** The calls of the attempt under way: none or one of two until the second start, complete from label1131 on. */
  predicate CallsSoFar(c: Config, l: Label, kinds: seq<Kind>) {
    if !l.Try? then Complete(c, kinds)
    else
      match l.a
      case L933 => kinds == [] || (c.created && kinds == [Created])
      case L1 => c.llod != 1 && (kinds == [] || (c.created && kinds == [Created]))
      case L1512 => c.llod == 1 && (kinds == [] || (c.created && kinds == [Created]))
      case L1127 => kinds == []
      case _ => Complete(c, kinds)
  }

  predicate CallsOk(c: Config, s: State, n: nat) {
    var kinds := CallsIn(s.tries.starts, n);
    if n == 0 || n > s.tries.attempts then kinds == []
    else if n < s.tries.attempts then Complete(c, kinds)
    else CallsSoFar(c, s.pc, kinds)
  }

  lemma LoggedCall(t: Tries, kind: Kind, bypass: bool, n: nat)
    ensures CallsIn(Logged(t, kind, bypass).starts, n) == CallsIn(t.starts, n) + if t.attempts == n then [kind] else []
  {
    assert Logged(t, kind, bypass).starts[..|t.starts|] == t.starts;
  }

  lemma BeginKeepsCalls(c: Config, s: State, e: Env, n: nat)
    requires s.pc == L76 && CallsOk(c, s, n) && CallsOk(c, s, s.tries.attempts + 1)
    ensures CallsOk(c, BeginAttempt(c, s, e), n)
  {
    var t := s.tries.(totalCalls := s.tries.totalCalls + 1, attempts := s.tries.attempts + 1);
    var r := BeginAttempt(c, s, e);
    LoggedCall(t, Created, true, n);
    LoggedCall(t, Cacheable, !(t.totalCalls < MONITOR_CALLS), n);
    if n == t.attempts {
      assert CallsIn(s.tries.starts, n) == [];
      assert CallsSoFar(c, r.pc, CallsIn(r.tries.starts, n));
    } else {
      assert CallsIn(r.tries.starts, n) == CallsIn(s.tries.starts, n);
    }
  }

  lemma StartKeepsCalls(c: Config, s: State, l: AttemptLabel, e: Env, n: nat)
    requires s.pc == Try(l) && (l == L1 || l == L1512 || l == L1127) && CallsOk(c, s, n) && s.tries.attempts > 0
    ensures CallsOk(c, NextInAttempt(c, s, l, e), n)
  {
    LoggedCall(s.tries, Llod, true, n);
    LoggedCall(s.tries, SourceOnly, true, n);
    LoggedCall(s.tries, Loopback, true, n);
  }

  lemma LaterKeepsCalls(c: Config, s: State, l: AttemptLabel, e: Env, n: nat)
    requires s.pc == Try(l) && l != L1 && l != L1512 && l != L1127 && CallsOk(c, s, n)
    ensures CallsOk(c, NextInAttempt(c, s, l, e), n)
  {
    var t := NextInAttempt(c, s, l, e);
    assert t.tries.starts == s.tries.starts && t.tries.attempts == s.tries.attempts;
  }

  lemma NextKeepsCalls(c: Config, s: State, e: Env, n: nat)
    requires CallsOk(c, s, n) && CallsOk(c, s, s.tries.attempts + 1)
    requires s.pc.Try? ==> s.tries.attempts > 0
    ensures CallsOk(c, Next(c, s, e), n)
  {
    match s.pc
    case Watch(w) => assert NextWatching(s, w, e).tries == s.tries;
    case Try(l) =>
      if l == L1 || l == L1512 || l == L1127 { StartKeepsCalls(c, s, l, e, n); }
      else { LaterKeepsCalls(c, s, l, e, n); }
    case L76 => BeginKeepsCalls(c, s, e, n);
    case _ =>
  }

  /**
  Every attempt of every run that is over, or has come to label1131, made one call, or two if the first was for
  a created channel.
  */
  lemma {:induction false} CallsOverRuns(c: Config, s: State, es: seq<Env>, n: nat)
    requires Initial(s)
    ensures CallsOk(c, Run(c, s, es), n)
  {
    if es != [] {
      var before := es[..|es| - 1];
      var r := Run(c, s, before);
      CallsOverRuns(c, s, before, n);
      CallsOverRuns(c, s, before, r.tries.attempts + 1);
      RunKeeps(c, s, before);
      NextKeepsCalls(c, r, es[|es| - 1], n);
    }
  }

  // ---------------------------------------------------------------- how long an attempt takes

  /**
  An upper bound on the turns until label554; while waiting, a segment that is not there yet may restart the
  count once.
  */
  function TurnsLeft(s: State): int
    requires s.pc.Try?
  {
    var b := Bound(s.segmentTime);
    match s.pc.a
    case L554 => 0
    case L430 => 1
    case L1267 => 2
    case L562 => 3
    case L998 => 4 + s.now.bound - s.now.checks + (if s.now.seen then 0 else s.now.bound)
    case L1131 => 5 + 2 * b
    case L1 => 6 + 2 * b
    case L1512 => 6 + 2 * b
    case L1127 => 6 + 2 * b
    case L933 => 7 + 2 * b
  }

  predicate AttemptOver(s: State) { s.pc == Try(L554) || s.pc == Exited }

  predicate Counted(s: State) { s.pc == Try(L998) ==> 0 <= s.now.checks <= s.now.bound && 0 < s.now.bound }

  lemma WaitGoesDown(c: Config, s: State, e: Env)
    requires s.pc == Try(L998) && Counted(s)
    ensures var t := WaitForPlaylist(c, s, e);
            Counted(t) && t.pc.Try? && 0 <= TurnsLeft(t) < TurnsLeft(s)
  {
  }

  lemma ReturnGoesDown(s: State, e: Env)
    requires s.pc == Try(L1131)
    ensures var t := StartReturned(s, e);
            Counted(t) && (t.pc == Exited || (t.pc.Try? && 0 <= TurnsLeft(t) < TurnsLeft(s)))
  {
  }

  lemma TurnsGoDown(c: Config, s: State, l: AttemptLabel, e: Env)
    requires s.pc == Try(l) && l != L554 && Counted(s)
    ensures var t := NextInAttempt(c, s, l, e);
            Counted(t) && (t.pc == Exited || (t.pc.Try? && 0 <= TurnsLeft(t) < TurnsLeft(s)))
  {
    match l
    case L998 => WaitGoesDown(c, s, e);
    case L1131 => ReturnGoesDown(s, e);
    case _ =>
  }

  lemma {:induction false} AttemptGoesOn(c: Config, s: State, es: seq<Env>, k: nat) returns (j: nat)
    requires k <= |es| && Counted(Run(c, s, es[..k]))
    requires AttemptOver(Run(c, s, es[..k])) || Run(c, s, es[..k]).pc.Try?
    requires Run(c, s, es[..k]).pc.Try? ==> TurnsLeft(Run(c, s, es[..k])) <= |es| - k
    ensures k <= j <= |es| && AttemptOver(Run(c, s, es[..j]))
    decreases |es| - k
  {
    var r := Run(c, s, es[..k]);
    if AttemptOver(r) {
      j := k;
    } else {
      TurnsAreLeft(r);
      assert es[..k + 1][..k] == es[..k];
      TurnsGoDown(c, r, r.pc.a, es[k]);
      j := AttemptGoesOn(c, s, es, k + 1);
    }
  }

  lemma TurnsAreLeft(s: State)
    requires s.pc.Try? && s.pc != Try(L554) && Counted(s)
    ensures TurnsLeft(s) > 0
  {
  }

  /**
  Whatever the outside world does, an attempt is over, or has ended the process, after at most 2 * bound + 8
  turns.
  */
  lemma AttemptEnds(c: Config, s: State, es: seq<Env>) returns (j: nat)
    requires s.pc == L76 && |es| == 2 * Bound(s.segmentTime) + 8 && !Alive(s, es[0])
    ensures 0 < j <= |es| <= 68 && AttemptOver(Run(c, s, es[..j]))
  {
    assert es[..1][..0] == [] && es[..1] == [es[0]];
    j := AttemptGoesOn(c, s, es, 1);
  }
}
