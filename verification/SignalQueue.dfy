/** The table of signals between servers, and the receivers that read, act and delete while others insert. */
module SignalQueue {
  import opened Collections

  // The decoded payload of a cache signal.
  datatype Payload = UpdateStream(id: int) | UpdateStreams(ids: seq<int>)
                   | UpdateLine(id: int) | UpdateLines(ids: seq<int>)
                   | DeleteConnection(uuid: string) | DeleteVod(id: int) | DeleteVods(ids: seq<int>) | Unknown

  datatype Kind = Process(pid: int, rtmp: bool) | Cache(payload: Payload)

  datatype Signal = Signal(server: int, kind: Kind)

  // A receiver between its SELECT and its DELETE: the ids it read, in the order in which they take effect, and
  // how many have.
  datatype Phase = Idle | Batch(process: bool, ids: seq<int>, acted: nat)

  // issued and handled are the history: every signal ever inserted, and who acted on which.
  datatype State = State(rows: map<int, Signal>, nextId: int, phases: map<int, Phase>,
                         issued: map<int, Signal>, handled: set<(int, int)>)

  datatype Step = Insert(signal: Signal)              // any process, at any time
                | Read(server: int, process: bool, ids: seq<int>)
                | Act(server: int)
                | Delete(server: int)
                | Crash(server: int)                  // the receiver dies and is started again

  function PhaseOf(s: State, server: int): Phase { if server in s.phases then s.phases[server] else Idle }

  predicate Selects(rows: map<int, Signal>, server: int, process: bool, id: int) {
    id in rows && rows[id].server == server && rows[id].kind.Process? == process
  }

  /**
  The answer to SELECT ... ORDER BY signal_id LIMIT n: an initial part of the matching rows, all of them below
  the limit.
  */
  ghost predicate IsSelection(rows: map<int, Signal>, server: int, process: bool, ids: seq<int>) {
    && (forall i :: 0 <= i < |ids| ==> Selects(rows, server, process, ids[i]))
    && (forall i, j :: 0 <= i < j < |ids| ==> ids[i] < ids[j])
    && |ids| <= Limit(process)
    && (forall id :: Selects(rows, server, process, id) && id !in ids ==>
          |ids| == Limit(process) && forall i :: 0 <= i < |ids| ==> ids[i] < id)
  }

  function Limit(process: bool): nat { if process then 100 else 1000 }

  /**
  Within a batch deletions and kills take effect row by row; then all stream updates are made, then all line
  updates.
  */
  function Stage(k: Kind): nat {
    if k.Process? then 0
    else if k.payload.UpdateStream? || k.payload.UpdateStreams? then 1
    else if k.payload.UpdateLine? || k.payload.UpdateLines? then 2
    else 0
  }

  function OfStage(rows: map<int, Signal>, ids: seq<int>, n: nat): seq<int> {
    if ids == [] then []
    else
      var last := ids[|ids| - 1];
      OfStage(rows, ids[..|ids| - 1], n) + (if last in rows && Stage(rows[last].kind) == n then [last] else [])
  }

  function EffectOrder(rows: map<int, Signal>, ids: seq<int>): seq<int> {
    OfStage(rows, ids, 0) + OfStage(rows, ids, 1) + OfStage(rows, ids, 2)
  }

  ghost predicate Enabled(s: State, st: Step) {
    match st
    case Insert(_) => true
    case Read(server, process, ids) => PhaseOf(s, server) == Idle && IsSelection(s.rows, server, process, ids)
    case Act(server) => PhaseOf(s, server).Batch? && PhaseOf(s, server).acted < |PhaseOf(s, server).ids|
    case Delete(server) => PhaseOf(s, server).Batch? && PhaseOf(s, server).acted == |PhaseOf(s, server).ids|
    case Crash(_) => true
  }

  ghost function Apply(s: State, st: Step): State
    requires Enabled(s, st)
  {
    match st
    case Insert(signal) =>
      s.(rows := s.rows[s.nextId := signal], issued := s.issued[s.nextId := signal], nextId := s.nextId + 1)
    case Read(server, process, ids) => s.(phases := s.phases[server := Batch(process, EffectOrder(s.rows, ids), 0)])
    case Act(server) =>
      var p := PhaseOf(s, server);
      s.(phases := s.phases[server := p.(acted := p.acted + 1)], handled := s.handled + {(p.ids[p.acted], server)})
    case Delete(server) =>
      s.(phases := s.phases[server := Idle], rows := s.rows - set id | id in PhaseOf(s, server).ids)
    case Crash(server) => s.(phases := s.phases[server := Idle])
  }

  const EMPTY := State(map[], 0, map[], map[], {})

  // ---------------------------------------------------------------- the order of effects

  lemma {:induction false} OfStageMeans(rows: map<int, Signal>, ids: seq<int>, n: nat)
    ensures forall id :: id in OfStage(rows, ids, n) <==> id in ids && id in rows && Stage(rows[id].kind) == n
    ensures NoRepeats(ids) ==> NoRepeats(OfStage(rows, ids, n))
  {
    if ids != [] {
      OfStageMeans(rows, ids[..|ids| - 1], n);
      assert ids == ids[..|ids| - 1] + [ids[|ids| - 1]];
    }
  }

  /** A batch takes effect once on each row it read, and on no other. */
  lemma EffectOrderMeans(rows: map<int, Signal>, ids: seq<int>)
    requires forall i :: 0 <= i < |ids| ==> ids[i] in rows
    ensures forall id :: id in EffectOrder(rows, ids) <==> id in ids
    ensures NoRepeats(ids) ==> NoRepeats(EffectOrder(rows, ids))
  {
    OfStageMeans(rows, ids, 0);
    OfStageMeans(rows, ids, 1);
    OfStageMeans(rows, ids, 2);
    if NoRepeats(ids) {
      ApartTogether(OfStage(rows, ids, 0), OfStage(rows, ids, 1));
      ApartTogether(OfStage(rows, ids, 0) + OfStage(rows, ids, 1), OfStage(rows, ids, 2));
    }
  }

  predicate IsLineUpdate(k: Kind) { k.Cache? && (k.payload.UpdateLine? || k.payload.UpdateLines?) }

  predicate IsStreamUpdate(k: Kind) { k.Cache? && (k.payload.UpdateStream? || k.payload.UpdateStreams?) }

  /** No line update takes effect before a stream update, and no update of either sort before anything else. */
  lemma UpdatesComeLast(rows: map<int, Signal>, ids: seq<int>, i: nat, j: nat)
    requires (forall n :: 0 <= n < |ids| ==> ids[n] in rows) && i < j < |EffectOrder(rows, ids)|
    ensures var o := EffectOrder(rows, ids);
            && o[i] in rows && o[j] in rows
            && (IsLineUpdate(rows[o[i]].kind) ==> IsLineUpdate(rows[o[j]].kind))
            && (IsStreamUpdate(rows[o[i]].kind) ==> IsStreamUpdate(rows[o[j]].kind) || IsLineUpdate(rows[o[j]].kind))
  {
    StageAt(rows, ids, i);
    StageAt(rows, ids, j);
  }

  /** The stage of the i-th effect, which is never lower than that of an earlier one. */
  lemma StageAt(rows: map<int, Signal>, ids: seq<int>, i: nat)
    requires i < |EffectOrder(rows, ids)|
    ensures var o, a, b := EffectOrder(rows, ids), |OfStage(rows, ids, 0)|, |OfStage(rows, ids, 1)|;
            o[i] in rows && Stage(rows[o[i]].kind) == if i < a then 0 else if i < a + b then 1 else 2
  {
    var a, b, c := OfStage(rows, ids, 0), OfStage(rows, ids, 1), OfStage(rows, ids, 2);
    OfStageMeans(rows, ids, 0);
    OfStageMeans(rows, ids, 1);
    OfStageMeans(rows, ids, 2);
    if i < |a| {
      var x := a[i];
      assert x in a;
    } else if i < |a| + |b| {
      var x := b[i - |a|];
      assert x in b;
    } else {
      var x := c[i - |a| - |b|];
      assert x in c;
    }
  }

  /** Within its stage the batch keeps the order of the ids. */
  lemma {:induction false} StageKeepsOrder(rows: map<int, Signal>, ids: seq<int>, n: nat)
    requires forall i, j :: 0 <= i < j < |ids| ==> ids[i] < ids[j]
    ensures forall i, j :: 0 <= i < j < |OfStage(rows, ids, n)| ==> OfStage(rows, ids, n)[i] < OfStage(rows, ids, n)[j]
  {
    if ids != [] {
      var front := ids[..|ids| - 1];
      StageKeepsOrder(rows, front, n);
      OfStageMeans(rows, front, n);
      var r := OfStage(rows, front, n);
      assert forall i :: 0 <= i < |r| ==> r[i] in r;
      assert forall id :: id in front ==> id < ids[|ids| - 1];
    }
  }

  /** A read answers with at most 100 signals for processes or 1000 others, and with all there are if with fewer. */
  lemma SelectionSize(rows: map<int, Signal>, server: int, process: bool, ids: seq<int>)
    requires IsSelection(rows, server, process, ids)
    ensures |ids| <= if process then 100 else 1000
    ensures |ids| < (if process then 100 else 1000) ==>
              forall id :: id in rows && rows[id].server == server && (rows[id].kind.Process? <==> process) ==>
                             id in ids
    ensures forall id :: id in ids ==> id in rows && rows[id].server == server && (rows[id].kind.Process? <==> process)
  {
    forall id | id in rows && rows[id].server == server && (rows[id].kind.Process? <==> process)
      ensures id !in ids ==> |ids| == Limit(process)
    {
      assert Selects(rows, server, process, id);
    }
    forall id | id in ids ensures Selects(rows, server, process, id) { }
  }

  lemma SmallestMember(ids: set<int>) returns (m: int)
    requires ids != {}
    ensures m in ids && forall id :: id in ids ==> m <= id
    decreases |ids|
  {
    var some := SomeMember(ids);
    var rest := ids - {some};
    assert forall id :: id in ids ==> id in rest || id == some;
    if rest == {} {
      m := some;
    } else {
      var n := SmallestMember(rest);
      m := if n < some then n else some;
    }
  }

  lemma SomeMember<T>(s: set<T>) returns (x: T)
    requires s != {}
    ensures x in s
  {
    x :| x in s;
  }

  /** The oldest n matching rows. */
  ghost predicate OldestRows(rows: map<int, Signal>, server: int, process: bool, ids: seq<int>, n: nat) {
    && (forall i :: 0 <= i < |ids| ==> Selects(rows, server, process, ids[i]))
    && (forall i, j :: 0 <= i < j < |ids| ==> ids[i] < ids[j])
    && |ids| <= n
    && (forall id :: Selects(rows, server, process, id) && id !in ids ==>
          |ids| == n && forall i :: 0 <= i < |ids| ==> ids[i] < id)
  }

  lemma {:induction false} OldestRowsExist(rows: map<int, Signal>, server: int, process: bool, n: nat)
      returns (ids: seq<int>)
    ensures OldestRows(rows, server, process, ids, n)
  {
    ids := [];
    if n > 0 {
      ids := OldestRowsExist(rows, server, process, n - 1);
      var rest := set id | id in rows && Selects(rows, server, process, id) && id !in ids;
      if rest != {} {
        var next := SmallestMember(rest);
        forall id | Selects(rows, server, process, id) && id !in ids + [next] ensures next < id { assert id in rest; }
        ids := ids + [next];
      } else {
        forall id | Selects(rows, server, process, id) ensures id in ids { assert id !in rest; }
      }
    }
  }

  /** An idle receiver can always read. */
  lemma ReadIsPossible(s: State, server: int, process: bool) returns (ids: seq<int>)
    requires PhaseOf(s, server).Idle?
    ensures Enabled(s, Read(server, process, ids))
  {
    ids := OldestRowsExist(s.rows, server, process, if process then 100 else 1000);
  }

  lemma ApartTogether(xs: seq<int>, ys: seq<int>)
    requires NoRepeats(xs) && NoRepeats(ys) && forall x :: x in xs ==> x !in ys
    ensures NoRepeats(xs + ys)
  {
    var all := xs + ys;
    forall i, j | 0 <= i < j < |all| ensures all[i] != all[j] {
      if i < |xs| <= j {
        assert all[i] in xs;
        assert all[j] in ys;
      }
    }
  }

  // ---------------------------------------------------------------- what every step keeps

  predicate Handled(s: State, id: int, server: int) { (id, server) in s.handled }

  ghost predicate Inv(s: State) {
    && (forall id :: id in s.issued ==> id < s.nextId)
    && (forall id :: id in s.rows ==> id in s.issued && s.issued[id] == s.rows[id])
    && (forall id :: id in s.issued ==> id in s.rows || Handled(s, id, s.issued[id].server))
    && (forall id, server :: Handled(s, id, server) ==> id in s.issued && s.issued[id].server == server)
    && (forall server :: server in s.phases ==> PhaseOk(s, server))
  }

  /** A batch under way consists of rows of its own server and kind that are all still there. */
  ghost predicate PhaseOk(s: State, server: int) {
    var p := PhaseOf(s, server);
    p.Batch? ==>
      && p.acted <= |p.ids| && NoRepeats(p.ids)
      && (forall i :: 0 <= i < |p.ids| ==> Selects(s.rows, server, p.process, p.ids[i]))
      && (forall i :: 0 <= i < p.acted ==> Handled(s, p.ids[i], server))
  }

  lemma ReadKeepsPhase(s: State, server: int, process: bool, ids: seq<int>)
    requires Enabled(s, Read(server, process, ids))
    ensures PhaseOk(Apply(s, Read(server, process, ids)), server)
  {
    EffectOrderMeans(s.rows, ids);
    var order := EffectOrder(s.rows, ids);
    forall i | 0 <= i < |order| ensures Selects(s.rows, server, process, order[i]) {
      var id := order[i];
      assert id in order;
      assert id in ids;
    }
  }

  lemma StepKeepsPhases(s: State, st: Step, server: int)
    requires Inv(s) && Enabled(s, st)
    ensures PhaseOk(Apply(s, st), server)
  {
    assert server in s.phases ==> PhaseOk(s, server);
    match st
    case Read(reader, process, ids) => if reader == server { ReadKeepsPhase(s, server, process, ids); }
    case Delete(other) => assert other in s.phases ==> PhaseOk(s, other);
    case _ =>
  }

  lemma StepKeeps(s: State, st: Step)
    requires Inv(s) && Enabled(s, st)
    ensures Inv(Apply(s, st))
  {
    var t := Apply(s, st);
    forall server | server in t.phases ensures PhaseOk(t, server) { StepKeepsPhases(s, st, server); }
    forall id, server | Handled(t, id, server) ensures id in t.issued && t.issued[id].server == server {
      if !Handled(s, id, server) { assert PhaseOk(s, server); }
    }
    if st.Delete? {
      var p := PhaseOf(s, st.server);
      assert PhaseOk(s, st.server);
      forall id | id in t.issued ensures id in t.rows || Handled(t, id, t.issued[id].server) {
        if id in s.rows && id !in t.rows {
          var i :| 0 <= i < |p.ids| && p.ids[i] == id;
        }
      }
    }
  }

  ghost predicate Runnable(s: State, run: seq<Step>)
    decreases |run|
  {
    run == [] || (Enabled(s, run[0]) && Runnable(Apply(s, run[0]), run[1..]))
  }

  ghost function Final(s: State, run: seq<Step>): State
    requires Runnable(s, run)
    decreases |run|
  {
    if run == [] then s else Final(Apply(s, run[0]), run[1..])
  }

  lemma {:induction false} RunKeeps(s: State, run: seq<Step>)
    requires Inv(s) && Runnable(s, run)
    ensures Inv(Final(s, run))
    decreases |run|
  {
    if run != [] {
      StepKeeps(s, run[0]);
      RunKeeps(Apply(s, run[0]), run[1..]);
    }
  }

  /**
  However inserts, receivers and crashes interleave: every signal ever inserted is still in the table or has been acted
  on, and only ever by the server it was sent to.
  */
  lemma NoSignalIsLost(run: seq<Step>, id: int)
    requires Runnable(EMPTY, run) && id in Final(EMPTY, run).issued
    ensures var t := Final(EMPTY, run);
            && (id in t.rows || Handled(t, id, t.issued[id].server))
            && (forall server :: Handled(t, id, server) ==> server == t.issued[id].server)
  {
    RunKeeps(EMPTY, run);
  }

  /** A receiver that reads always reads its oldest signal, if there is one. */
  lemma OldestIsRead(s: State, server: int, process: bool, ids: seq<int>, id: int)
    requires IsSelection(s.rows, server, process, ids) && Selects(s.rows, server, process, id)
    requires forall other :: Selects(s.rows, server, process, other) ==> id <= other
    ensures id in ids && ids[0] == id
  {
    assert ids != [] ==> Selects(s.rows, server, process, ids[0]);
    if id in ids {
      var i :| 0 <= i < |ids| && ids[i] == id;
    }
  }

  // -------------------------------------------------------------- a signal is handled after a bounded number of rounds

  /** The rows its receiver reads before this one: those of the same server and kind with a smaller id. */
  function Older(s: State, id: int): set<int>
    requires id in s.rows
  {
    set j | j in s.rows && j < id && Selects(s.rows, s.rows[id].server, s.rows[id].kind.Process?, j)
  }

  /** The step is a receiver's DELETE at the end of a batch of the given kind. */
  predicate EndsRound(s: State, st: Step, server: int, process: bool) {
    st == Delete(server) && PhaseOf(s, server).Batch? && PhaseOf(s, server).process == process
  }

  /** How many batches of that kind the receiver completes during a run. */
  ghost function Rounds(s: State, run: seq<Step>, server: int, process: bool): nat
    requires Runnable(s, run)
    decreases |run|
  {
    if run == [] then 0
    else (if EndsRound(s, run[0], server, process) then 1 else 0) + Rounds(Apply(s, run[0]), run[1..], server, process)
  }

  function Members(ids: seq<int>): set<int> { set id | id in ids }

  lemma {:induction false} SizeOfMembers(ids: seq<int>)
    requires NoRepeats(ids)
    ensures |Members(ids)| == |ids|
  {
    if ids != [] {
      var front, last := ids[..|ids| - 1], ids[|ids| - 1];
      SizeOfMembers(front);
      assert Members(ids) == Members(front) + {last};
    }
  }

  /** A batch of the row's kind that is under way holds the row, or is full of older ones. */
  predicate ReadWithRow(s: State, id: int)
    requires id in s.rows
  {
    var p := PhaseOf(s, s.rows[id].server);
    p.Batch? && p.process == s.rows[id].kind.Process? ==>
      id in p.ids || (|Members(p.ids)| == Limit(p.process) && forall j :: j in p.ids ==> j < id)
  }

  lemma ReadReadsRow(s: State, id: int, ids: seq<int>)
    requires Inv(s) && id in s.rows && Enabled(s, Read(s.rows[id].server, s.rows[id].kind.Process?, ids))
    ensures ReadWithRow(Apply(s, Read(s.rows[id].server, s.rows[id].kind.Process?, ids)), id)
  {
    EffectOrderMeans(s.rows, ids);
    var order := EffectOrder(s.rows, ids);
    if id !in ids {
      SizeOfMembers(ids);
      assert Members(order) == Members(ids);
      assert forall j :: j in order ==> j in ids && j < id;
    }
  }

  /** Nothing but the end of a round takes a row or its elders away, and nothing adds an elder. */
  lemma RowStays(s: State, st: Step, id: int)
    requires Inv(s) && Enabled(s, st) && id in s.rows
    requires !EndsRound(s, st, s.rows[id].server, s.rows[id].kind.Process?)
    ensures var t := Apply(s, st);
            && id in t.rows && t.rows[id] == s.rows[id] && Older(t, id) <= Older(s, id)
            && (ReadWithRow(s, id) ==> ReadWithRow(t, id))
  {
    var server := s.rows[id].server;
    assert server in s.phases ==> PhaseOk(s, server);
    match st
    case Read(reader, process, ids) =>
      if reader == server && process == s.rows[id].kind.Process? { ReadReadsRow(s, id, ids); }
    case Delete(other) => assert PhaseOk(s, other);
    case _ =>
  }

  /** The end of a round handles the row, or takes a whole limit's worth of elders away. */
  lemma RoundCounts(s: State, st: Step, id: int)
    requires Inv(s) && Enabled(s, st) && id in s.rows && ReadWithRow(s, id)
    requires EndsRound(s, st, s.rows[id].server, s.rows[id].kind.Process?)
    ensures var t := Apply(s, st); var server, process := s.rows[id].server, s.rows[id].kind.Process?;
            Handled(t, id, server) || (id in t.rows && t.rows[id] == s.rows[id] && ReadWithRow(t, id)
                                       && |Older(t, id)| + Limit(process) == |Older(s, id)|)
  {
    var t, p := Apply(s, st), PhaseOf(s, s.rows[id].server);
    assert PhaseOk(s, s.rows[id].server);
    if id in p.ids {
      var i :| 0 <= i < |p.ids| && p.ids[i] == id;
    } else {
      forall j | j in p.ids ensures j in Older(s, id) {
        var i :| 0 <= i < |p.ids| && p.ids[i] == j;
      }
      assert Members(p.ids) <= Older(s, id);
      assert Older(t, id) == Older(s, id) - Members(p.ids);
    }
  }

  lemma {:induction false} HandledForGood(s: State, run: seq<Step>, id: int, server: int)
    requires Runnable(s, run) && Handled(s, id, server)
    ensures Handled(Final(s, run), id, server)
    decreases |run|
  {
    if run != [] { HandledForGood(Apply(s, run[0]), run[1..], id, server); }
  }

  lemma {:induction false} HandledOnceRead(s: State, run: seq<Step>, id: int, k: nat)
    requires Inv(s) && Runnable(s, run) && id in s.rows && ReadWithRow(s, id)
    requires var server, process := s.rows[id].server, s.rows[id].kind.Process?;
             |Older(s, id)| < Limit(process) * k && k <= Rounds(s, run, server, process)
    ensures Handled(Final(s, run), id, s.rows[id].server)
    decreases |run|
  {
    if run != [] {
      var st, rest, server := run[0], run[1..], s.rows[id].server;
      var t := Apply(s, st);
      StepKeeps(s, st);
      if EndsRound(s, st, server, s.rows[id].kind.Process?) {
        RoundCounts(s, st, id);
        if Handled(t, id, server) { HandledForGood(t, rest, id, server); } else { HandledOnceRead(t, rest, id, k - 1); }
      } else {
        RowStays(s, st, id);
        SubsetSize(Older(t, id), Older(s, id));
        HandledOnceRead(t, rest, id, k);
      }
    }
  }

  /**
  Liveness in terms of the receiver's own work: whatever happens in between, a row with fewer than k limits' worth of
  older rows of its kind has been handled once its receiver has completed k + 1 batches of that kind.  The extra one is
  a batch that may have been read before the row was inserted.
  */
  lemma {:induction false} HandledWithinRounds(s: State, run: seq<Step>, id: int, k: nat)
    requires Inv(s) && Runnable(s, run) && id in s.rows
    requires var server, process := s.rows[id].server, s.rows[id].kind.Process?;
             |Older(s, id)| < Limit(process) * k && k + 1 <= Rounds(s, run, server, process)
    ensures Handled(Final(s, run), id, s.rows[id].server)
    decreases |run|
  {
    if ReadWithRow(s, id) {
      HandledOnceRead(s, run, id, k);
    } else if run != [] {
      var st, rest, server := run[0], run[1..], s.rows[id].server;
      var t := Apply(s, st);
      StepKeeps(s, st);
      if EndsRound(s, st, server, s.rows[id].kind.Process?) {
        StaleRoundEnds(s, st, id);
        if id in t.rows {
          SubsetSize(Older(t, id), Older(s, id));
          HandledOnceRead(t, rest, id, k);
        } else {
          HandledForGood(t, rest, id, server);
        }
      } else {
        RowStays(s, st, id);
        SubsetSize(Older(t, id), Older(s, id));
        HandledWithinRounds(t, rest, id, k);
      }
    }
  }

  lemma StaleRoundEnds(s: State, st: Step, id: int)
    requires Inv(s) && Enabled(s, st) && id in s.rows
    requires EndsRound(s, st, s.rows[id].server, s.rows[id].kind.Process?)
    ensures var t := Apply(s, st);
            if id in t.rows then t.rows[id] == s.rows[id] && Older(t, id) <= Older(s, id) && ReadWithRow(t, id)
            else Handled(t, id, s.rows[id].server)
  {
    StepKeeps(s, st);
  }

  // ---------------------------------------------------------------- coalesced update requests

  /** The row is waiting and the batch its receiver is working on has not reached it. */
  predicate Pending(s: State, id: int) {
    id in s.rows && (var p := PhaseOf(s, s.rows[id].server); p.Batch? && p.acted <= |p.ids| ==> id !in p.ids[..p.acted])
  }

  predicate Queued(s: State, signal: Signal) { exists id :: id in s.rows && s.rows[id] == signal }

  /** An update request is inserted only if no equal row is in the table. */
  ghost function Requested(s: State, signal: Signal): State {
    if Queued(s, signal) then s else Apply(s, Insert(signal))
  }

  predicate ActsOn(s: State, st: Step, id: int) {
    st.Act? && PhaseOf(s, st.server).Batch? && PhaseOf(s, st.server).acted < |PhaseOf(s, st.server).ids|
    && PhaseOf(s, st.server).ids[PhaseOf(s, st.server).acted] == id
  }

  /** Nobody acts on a row that equals the signal while the run lasts. */
  ghost predicate NeverActsOn(s: State, run: seq<Step>, signal: Signal)
    requires Runnable(s, run)
    decreases |run|
  {
    run != [] ==>
      && (forall id :: ActsOn(s, run[0], id) && id in s.rows ==> s.rows[id] != signal)
      && NeverActsOn(Apply(s, run[0]), run[1..], signal)
  }

  /** The run takes every row that equals the signal out of the table without anybody acting on one. */
  ghost predicate Swallows(s: State, run: seq<Step>, signal: Signal) {
    Runnable(s, run) && NeverActsOn(s, run, signal) && !Queued(Final(s, run), signal)
  }

  ghost predicate CanBeSwallowed(s: State, signal: Signal) { exists run :: Swallows(s, run, signal) }

  /** A pending row stays pending until its own receiver acts on it; nothing else removes it. */
  lemma PendingUntilActedOn(s: State, st: Step, id: int)
    requires Inv(s) && Enabled(s, st) && Pending(s, id)
    ensures Pending(Apply(s, st), id) || ActsOn(s, st, id)
    ensures ActsOn(s, st, id) ==> st == Act(s.rows[id].server) && Handled(Apply(s, st), id, s.rows[id].server)
    ensures id in Apply(s, st).rows ==> Apply(s, st).rows[id] == s.rows[id]
  {
    var server := s.rows[id].server;
    assert server in s.phases ==> PhaseOk(s, server);
    if st.Delete? && st.server != server {
      assert PhaseOk(s, st.server);
    }
    if st == Act(server) {
      var p := PhaseOf(s, server);
      assert p.ids[..p.acted + 1] == p.ids[..p.acted] + [p.ids[p.acted]];
    }
    if st == Delete(server) {
      var p := PhaseOf(s, server);
      assert p.ids[..p.acted] == p.ids;
    }
    if st.Act? && st.server != server {
      assert PhaseOk(s, st.server);
    }
  }

  /** Over a whole run: as long as nobody acts on a row that equals it, a pending row stays in the table. */
  lemma {:induction false} PendingOverRuns(s: State, run: seq<Step>, id: int)
    requires Inv(s) && Runnable(s, run) && Pending(s, id) && NeverActsOn(s, run, s.rows[id])
    ensures Pending(Final(s, run), id) && Final(s, run).rows[id] == s.rows[id]
    decreases |run|
  {
    if run != [] {
      StepKeeps(s, run[0]);
      PendingUntilActedOn(s, run[0], id);
      PendingOverRuns(Apply(s, run[0]), run[1..], id);
    }
  }

  /** The rest of a batch: act on n more rows, then delete. */
  function Finish(server: int, n: nat): seq<Step> {
    if n == 0 then [Delete(server)] else [Act(server)] + Finish(server, n - 1)
  }

  lemma {:induction false} FinishSwallows(s: State, signal: Signal, n: nat)
    requires Inv(s) && PhaseOf(s, signal.server).Batch?
             && PhaseOf(s, signal.server).acted + n == |PhaseOf(s, signal.server).ids|
    requires forall id :: id in s.rows && s.rows[id] == signal ==> !Pending(s, id)
    ensures Swallows(s, Finish(signal.server, n), signal)
    decreases n
  {
    var p, run := PhaseOf(s, signal.server), Finish(signal.server, n);
    assert PhaseOk(s, signal.server);
    var t := Apply(s, run[0]);
    if n == 0 {
      assert p.ids[..p.acted] == p.ids;
      assert run[1..] == [] && Runnable(t, []);
      assert Final(s, run) == Final(t, []);
      assert NeverActsOn(t, [], signal);
    } else {
      var next := p.ids[p.acted];
      assert next !in p.ids[..p.acted];
      assert next in s.rows && s.rows[next] != signal;
      assert p.ids[..p.acted + 1] == p.ids[..p.acted] + [next];
      assert run[1..] == Finish(signal.server, n - 1);
      StepKeeps(s, run[0]);
      FinishSwallows(t, signal, n - 1);
    }
  }

  lemma InsertedIsPending(s: State, signal: Signal)
    requires Inv(s)
    ensures Inv(Apply(s, Insert(signal))) && Pending(Apply(s, Insert(signal)), s.nextId)
    ensures Apply(s, Insert(signal)).rows[s.nextId] == signal
  {
    StepKeeps(s, Insert(signal));
    assert signal.server in s.phases ==> PhaseOk(s, signal.server);
  }

  /**
  A request can be swallowed, by some continuation that clears the table of equal rows without acting on any, if and
  only if an equal row is queued and the receiver is past every equal row in the batch it is working on.  Otherwise
  every continuation acts on an equal row before the last one goes.
  */
  lemma RequestIsSwallowedIff(s: State, signal: Signal)
    requires Inv(s)
    ensures CanBeSwallowed(Requested(s, signal), signal)
       <==> Queued(s, signal) && forall id :: id in s.rows && s.rows[id] == signal ==> !Pending(s, id)
  {
    var t := Requested(s, signal);
    if Queued(s, signal) && forall id :: id in s.rows && s.rows[id] == signal ==> !Pending(s, id) {
      var id :| id in s.rows && s.rows[id] == signal;
      var p := PhaseOf(s, signal.server);
      assert p.Batch? && PhaseOk(s, signal.server);
      FinishSwallows(s, signal, |p.ids| - p.acted);
    } else {
      InsertedIsPending(s, signal);
      var id :| id in t.rows && t.rows[id] == signal && Pending(t, id);
      forall run | Runnable(t, run) && NeverActsOn(t, run, signal) ensures Queued(Final(t, run), signal) {
        PendingOverRuns(t, run, id);
      }
    }
  }

  /** A receiver that dies before its DELETE revives the request: the row it had acted on will be acted on again. */
  lemma CrashRevives(s: State, signal: Signal)
    requires Inv(s) && Queued(s, signal)
    ensures !CanBeSwallowed(Apply(s, Crash(signal.server)), signal)
  {
    var t := Apply(s, Crash(signal.server));
    StepKeeps(s, Crash(signal.server));
    var id :| id in s.rows && s.rows[id] == signal;
    assert Pending(t, id) && t.rows[id] == signal;
    RequestIsSwallowedIff(t, signal);
  }

  /** A request made now inserts nothing, and the receiver's next step empties the table. */
  ghost predicate LosesRequest(s: State, signal: Signal) {
    Requested(s, signal) == s && Enabled(s, Delete(signal.server)) && Apply(s, Delete(signal.server)).rows == map[]
  }

  lemma OneEffect(rows: map<int, Signal>, id: int)
    requires id in rows
    ensures EffectOrder(rows, [id]) == [id]
  {
    assert [id][..0] == [];
    assert forall n :: OfStage(rows, [id], n) == if Stage(rows[id].kind) == n then [id] else [];
  }

  /** A request can be lost: the receiver has acted on an equal row but not yet deleted it. */
  lemma RequestCanBeLost(server: int, stream: int)
    ensures var signal := Signal(server, Cache(UpdateStream(stream)));
            var run := [Insert(signal), Read(server, false, [0]), Act(server)];
            Runnable(EMPTY, run) && LosesRequest(Final(EMPTY, run), signal)
  {
    var signal := Signal(server, Cache(UpdateStream(stream)));
    var run := [Insert(signal), Read(server, false, [0]), Act(server)];
    var s1 := Apply(EMPTY, run[0]);
    assert s1.rows == map[0 := signal];
    assert IsSelection(s1.rows, server, false, [0]);
    var s2 := Apply(s1, run[1]);
    OneEffect(s1.rows, 0);
    var s3 := Apply(s2, run[2]);
    var two, one := [run[1], run[2]], [run[2]];
    assert run[1..] == two && two[1..] == one && one[1..] == [];
    assert Runnable(s3, []) && Runnable(s2, one) && Runnable(s1, two);
    assert Final(s3, []) == s3 && Final(s2, one) == s3 && Final(s1, two) == s3;
    assert s3.rows[0] == signal;
  }

  // ---------------------------------------------------------------- acting on one batch

  datatype CacheRow = CacheRow(signalId: int, payload: Payload)

  // What a batch leads to: ids to delete, streams and lines to refresh, connection and film files to remove.
  datatype Work = Work(ids: seq<int>, streams: seq<int>, lines: seq<int>, connections: set<string>, films: set<int>)

  function StreamsOf(p: Payload): seq<int> {
    if p.UpdateStream? then [p.id] else if p.UpdateStreams? then p.ids else []
  }

  function LinesOf(p: Payload): seq<int> { if p.UpdateLine? then [p.id] else if p.UpdateLines? then p.ids else [] }

  function FilmsOf(p: Payload): seq<int> { match p case DeleteVod(id) => [id] case DeleteVods(ids) => ids case _ => [] }

  /** Append what is not there yet. */
  method Merge(xs: seq<int>, more: seq<int>) returns (r: seq<int>)
    requires NoRepeats(xs)
    ensures NoRepeats(r) && forall x :: x in r <==> x in xs || x in more
  {
    r := xs;
    for k := 0 to |more|
      invariant NoRepeats(r) && forall x :: x in r <==> x in xs || x in more[..k]
    {
      assert more[..k + 1] == more[..k] + [more[k]];
      if more[k] !in r {
        r := r + [more[k]];
      }
    }
    assert more[..|more|] == more;
  }

  /** What one row adds to the work of a batch. */
  method AddRow(w: Work, row: CacheRow) returns (r: Work)
    requires NoRepeats(w.streams) && NoRepeats(w.lines)
    ensures NoRepeats(r.streams) && NoRepeats(r.lines) && r.ids == w.ids + [row.signalId]
    ensures forall x :: x in r.streams <==> x in w.streams || x in StreamsOf(row.payload)
    ensures forall x :: x in r.lines <==> x in w.lines || x in LinesOf(row.payload)
    ensures forall x :: x in r.films <==> x in w.films || x in FilmsOf(row.payload)
    ensures forall u :: u in r.connections <==> u in w.connections || row.payload == DeleteConnection(u)
  {
    r := w.(ids := w.ids + [row.signalId]);
    match row.payload
    case UpdateStream(id) =>
      if id !in r.streams {
        r := r.(streams := r.streams + [id]);
      }
    case UpdateLine(id) =>
      if id !in r.lines {
        r := r.(lines := r.lines + [id]);
      }
    case UpdateStreams(ids) =>
      var streams := Merge(r.streams, ids);
      r := r.(streams := streams);
    case UpdateLines(ids) =>
      var lines := Merge(r.lines, ids);
      r := r.(lines := lines);
    case DeleteConnection(uuid) =>
      r := r.(connections := r.connections + {uuid});
    case DeleteVod(id) =>
      r := r.(films := r.films + {id});
    case DeleteVods(ids) =>
      r := r.(films := r.films + set id | id in ids);
    case Unknown =>
  }

  /** One batch covers every row it read, refreshes nothing twice and nothing that no row names. */
  method CollectWork(rows: seq<CacheRow>) returns (w: Work)
    ensures |w.ids| == |rows| && forall i :: 0 <= i < |rows| ==> w.ids[i] == rows[i].signalId
    ensures NoRepeats(w.streams) && forall x :: x in w.streams <==> exists r :: r in rows && x in StreamsOf(r.payload)
    ensures NoRepeats(w.lines) && forall x :: x in w.lines <==> exists r :: r in rows && x in LinesOf(r.payload)
    ensures forall x :: x in w.films <==> exists r :: r in rows && x in FilmsOf(r.payload)
    ensures forall u :: u in w.connections <==> exists r :: r in rows && r.payload == DeleteConnection(u)
  {
    w := Work([], [], [], {}, {});
    for k := 0 to |rows|
      invariant |w.ids| == k && forall i :: 0 <= i < k ==> w.ids[i] == rows[i].signalId
      invariant NoRepeats(w.streams)
                && forall x :: x in w.streams <==> exists r :: r in rows[..k] && x in StreamsOf(r.payload)
      invariant NoRepeats(w.lines)
                && forall x :: x in w.lines <==> exists r :: r in rows[..k] && x in LinesOf(r.payload)
      invariant forall x :: x in w.films <==> exists r :: r in rows[..k] && x in FilmsOf(r.payload)
      invariant forall u :: u in w.connections <==> exists r :: r in rows[..k] && r.payload == DeleteConnection(u)
    {
      var row := rows[k];
      assert rows[..k + 1] == rows[..k] + [row];
      w := AddRow(w, row);
    }
    assert rows[..|rows|] == rows;
  }
}
