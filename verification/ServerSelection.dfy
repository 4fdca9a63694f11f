/**
Which server delivers a stream: eligibility, load order, and the forced, geographic, provider and priority
choices.
*/
module ServerSelection {
  import opened Collections

  datatype Strictness = Strict | LowPriority | HighPriority

  // enabled, matched: the rule is switched on, and the client's country or provider is on its list.
  datatype Rule = Rule(enabled: bool, matched: bool, kind: Strictness)

  datatype Server = Server(online: bool, main: bool, timeshiftOnly: bool, totalClients: int, geo: Rule, isp: Rule)

  // One server's copy of the stream.
  datatype Copy = Copy(pid: int, toAnalyze: bool, status: int, onDemand: bool, delayOver: bool)

  // One row of the capacity table; servers without clients have none.
  datatype Load = Load(clients: nat, capacity: real)

  datatype Kind = Live | Movie | Archive(archiveServer: int, hasArchive: bool)

  datatype Request = Request(kind: Kind, extension: string, container: string, directSource: bool,
                             localServer: int, forcedServer: int, balanceEqual: bool)

  datatype World = World(servers: map<int, Server>, copies: map<int, Copy>, loads: map<int, Load>)

  datatype Choice = NotAvailable | NoCapacity | DirectSource | Chosen(id: int)

  // ---------------------------------------------------------------- what makes a server eligible

  predicate Reachable(w: World, id: int) {
    id in w.servers && id in w.copies && w.servers[id].online && w.servers[id].main
  }

  predicate MovieReady(w: World, id: int) {
    Reachable(w, id) && w.copies[id].pid != 0 && !w.copies[id].toAnalyze && w.copies[id].status == 0
  }

  predicate Eligible(w: World, q: Request, id: int) {
    match q.kind
    case Archive(server, has) => has && 0 < server && id == server && id in w.servers
    case Movie => MovieReady(w, id) && !w.servers[id].timeshiftOnly
    case Live =>
      && Reachable(w, id) && !w.copies[id].toAnalyze && w.copies[id].delayOver && !w.servers[id].timeshiftOnly
      && ((w.copies[id].onDemand && w.copies[id].status != 1) || (0 < w.copies[id].pid && w.copies[id].status == 0))
  }

  /** What disqualifies a server, each reason by itself. */
  lemma WhatDisqualifies(w: World, q: Request, id: int)
    requires id in w.servers && id in w.copies
    ensures q.kind.Live? ==>
              (!Eligible(w, q, id) <==>
                var s, c := w.servers[id], w.copies[id];
                || !s.online || !s.main || s.timeshiftOnly || c.toAnalyze || !c.delayOver
                || (c.onDemand && c.status == 1)
                || (!c.onDemand && (c.pid <= 0 || c.status != 0)))
    ensures q.kind.Movie? ==>
              (!Eligible(w, q, id) <==>
                var s, c := w.servers[id], w.copies[id];
                !s.online || !s.main || s.timeshiftOnly || c.toAnalyze || c.pid == 0 || c.status != 0)
  {
  }

  /** A server without the stream, or one that is not known, is not eligible; an archive has one server. */
  lemma WhoIsNotAsked(w: World, q: Request, id: int)
    ensures !q.kind.Archive? && (id !in w.servers || id !in w.copies) ==> !Eligible(w, q, id)
    ensures q.kind.Archive? ==>
              (Eligible(w, q, id) <==>
                q.kind.hasArchive && q.kind.archiveServer > 0 && id == q.kind.archiveServer && id in w.servers)
  {
  }

  function Filtered(ids: seq<int>, w: World, q: Request): seq<int> {
    if ids == [] then []
    else Filtered(ids[..|ids| - 1], w, q) + (if Eligible(w, q, ids[|ids| - 1]) then [ids[|ids| - 1]] else [])
  }

  /** The container test changes the extension: a film, another container, and some server that is otherwise ready. */
  predicate Altered(w: World, q: Request, listing: seq<int>) {
    q.kind.Movie? && q.container != q.extension && exists id :: id in listing && MovieReady(w, id)
  }

  lemma AlteredNext(w: World, q: Request, listing: seq<int>, id: int)
    ensures Altered(w, q, listing + [id])
       <==> Altered(w, q, listing) || (q.kind.Movie? && q.container != q.extension && MovieReady(w, id))
  {
    var all := listing + [id];
    assert all[|listing|] == id && forall i :: 0 <= i < |listing| ==> all[i] == listing[i];
  }

  /**
  The servers that may deliver the stream, in listing order.  For a movie the container test assigns 'srt' to the
  requested extension instead of comparing with it, so a container never excludes a server, but a mismatch at any
  server that is otherwise ready changes the extension for the rest of the request.
  */
  method EligibleServers(listing: seq<int>, w: World, q: Request) returns (ids: seq<int>, extension: string)
    requires !q.kind.Archive?
    ensures ids == Filtered(listing, w, q)
    ensures extension == if Altered(w, q, listing) then "srt" else q.extension
  {
    ids, extension := [], q.extension;
    for i := 0 to |listing|
      invariant ids == Filtered(listing[..i], w, q)
      invariant extension == if Altered(w, q, listing[..i]) then "srt" else q.extension
    {
      var id := listing[i];
      AlteredNext(w, q, listing[..i], id);
      assert listing[..i + 1] == listing[..i] + [id] && listing[..i + 1][..i] == listing[..i];
      if id in w.servers && id in w.copies && w.servers[id].online && w.servers[id].main {
        var copy := w.copies[id];
        if q.kind.Movie? {
          if copy.pid != 0 && !copy.toAnalyze && copy.status == 0 {
            if q.container != extension {
              extension := "srt";
            }
            if !w.servers[id].timeshiftOnly {
              ids := ids + [id];
            }
          }
        } else if ((copy.onDemand && copy.status != 1) || (0 < copy.pid && copy.status == 0))
                  && !copy.toAnalyze && copy.delayOver && !w.servers[id].timeshiftOnly {
          ids := ids + [id];
        }
      }
    }
    assert listing[..|listing|] == listing;
  }

  // ---------------------------------------------------------------- the order among eligible servers

  function Clients(w: World, id: int): nat { if id in w.loads then w.loads[id].clients else 0 }

  function Capacity(w: World, id: int): real {
    if Clients(w, id) == 0 then 0.0 else w.loads[id].capacity
  }

  predicate HasRoom(w: World, id: int) {
    id in w.servers && 0 < w.servers[id].totalClients && Clients(w, id) < w.servers[id].totalClients
  }

  /** Less loaded, the lower id deciding ties. */
  predicate Lighter(w: World, a: int, b: int) {
    Capacity(w, a) < Capacity(w, b) || (Capacity(w, a) == Capacity(w, b) && a < b)
  }

  // How a server stands towards this client: matched by its rule, closed to it, or ranked (lower is better).
  datatype Standing = Matched | Closed | Ranked(rank: int)

  function UnderRule(r: Rule, onDemand: bool): Standing {
    if r.matched then Matched
    else if r.kind == Strict then Closed
    else Ranked((if r.kind == LowPriority then 2 else 1) + (if onDemand then 1 else 0))
  }

  function StandingOf(w: World, q: Request, id: int): Standing
    requires id in w.servers
  {
    var onDemand := !q.balanceEqual && id in w.copies && w.copies[id].onDemand;
    var s := w.servers[id];
    if s.geo.enabled then UnderRule(s.geo, onDemand)
    else if s.isp.enabled then UnderRule(s.isp, onDemand)
    else Ranked(if onDemand then 2 else 1)
  }

  predicate Better(w: World, q: Request, a: int, b: int)
    requires a in w.servers && b in w.servers
    requires StandingOf(w, q, a).Ranked? && StandingOf(w, q, b).Ranked?
  {
    var ra, rb := StandingOf(w, q, a).rank, StandingOf(w, q, b).rank;
    ra < rb || (ra == rb && Lighter(w, a, b))
  }

  // ---------------------------------------------------------------- the choice, without any order of arrival

  function Accepted(w: World, ids: set<int>): set<int> { set id | id in ids && HasRoom(w, id) }

  /** The choice among a set of eligible servers; rtmp tells whether the (possibly altered) extension is rtmp. */
  predicate IsChoice(w: World, q: Request, rtmp: bool, ids: set<int>, r: Choice) {
    var acc := Accepted(w, ids);
    if ids == {} then r == NotAvailable
    else if acc == {} then r == NoCapacity
    else if rtmp && q.localServer in acc then r == Chosen(q.localServer)
    else if q.forcedServer != 0 && q.forcedServer in acc then r == Chosen(q.forcedServer)
    else if exists m :: m in acc && StandingOf(w, q, m).Matched? then
      && r.Chosen? && r.id in acc && StandingOf(w, q, r.id).Matched?
      && forall m :: m in acc && m != r.id && StandingOf(w, q, m).Matched? ==> Lighter(w, r.id, m)
    else if exists m :: m in acc && StandingOf(w, q, m).Ranked? then
      && r.Chosen? && r.id in acc && StandingOf(w, q, r.id).Ranked?
      && forall m :: m in acc && m != r.id && StandingOf(w, q, m).Ranked? ==> Better(w, q, r.id, m)
    else r == NotAvailable
  }

  /** There is one choice only: it cannot depend on how the servers were shuffled. */
  lemma ChoiceIsUnique(w: World, q: Request, rtmp: bool, ids: set<int>, r1: Choice, r2: Choice)
    requires IsChoice(w, q, rtmp, ids, r1) && IsChoice(w, q, rtmp, ids, r2)
    ensures r1 == r2
  {
  }

  /** The winner always has room; a closed server wins only as the local rtmp server or as the forced one. */
  lemma WinnerIsAdmissible(w: World, q: Request, rtmp: bool, ids: set<int>, r: Choice)
    requires IsChoice(w, q, rtmp, ids, r) && r.Chosen?
    ensures r.id in ids && HasRoom(w, r.id)
    ensures StandingOf(w, q, r.id).Closed? ==> (rtmp && r.id == q.localServer) || r.id == q.forcedServer
  {
    assert r.id in Accepted(w, ids);
  }

  // ---------------------------------------------------------------- the choice, spelled out

  predicate TakesClients(w: World, id: int) {
    && id in w.servers && 0 < w.servers[id].totalClients
    && (id in w.loads ==> w.loads[id].clients < w.servers[id].totalClients)
  }

  /** The rule in force, geographic before provider, names the client. */
  predicate Welcomes(s: Server) {
    (s.geo.enabled && s.geo.matched) || (!s.geo.enabled && s.isp.enabled && s.isp.matched)
  }

  /** The rule in force does not name the client and is of this kind. */
  predicate Reserves(s: Server, kind: Strictness) {
    || (s.geo.enabled && !s.geo.matched && s.geo.kind == kind)
    || (!s.geo.enabled && s.isp.enabled && !s.isp.matched && s.isp.kind == kind)
  }

  /** One, one more for a server of low priority, and one more for a stream on demand unless balanced equally. */
  function Points(w: World, q: Request, id: int): int
    requires id in w.servers
  {
    1 + (if Reserves(w.servers[id], LowPriority) then 1 else 0)
    + (if id in w.copies && w.copies[id].onDemand && !q.balanceEqual then 1 else 0)
  }

  /** Less load in the capacity table, where no clients means none, or the same load and the lower id. */
  predicate LessLoaded(w: World, a: int, b: int) {
    var x := if a in w.loads && w.loads[a].clients > 0 then w.loads[a].capacity else 0.0;
    var y := if b in w.loads && w.loads[b].clients > 0 then w.loads[b].capacity else 0.0;
    x < y || (x == y && a < b)
  }

  /** The local server is wanted for rtmp, or the line is bound to a server, and that server takes clients. */
  predicate Bound(w: World, q: Request, rtmp: bool, ids: set<int>, id: int) {
    && id in ids && TakesClients(w, id)
    && ((rtmp && id == q.localServer) || (q.forcedServer != 0 && id == q.forcedServer))
  }

  /**
  Who wins: the local rtmp server, else the forced one, else the least loaded server that welcomes the client, else the
  one of fewest points and least load among those that do not turn the client away.
  */
  lemma WinnerIs(w: World, q: Request, rtmp: bool, ids: set<int>, r: Choice)
    requires IsChoice(w, q, rtmp, ids, r) && r.Chosen?
    ensures r.id in ids && TakesClients(w, r.id)
    ensures rtmp && q.localServer in ids && TakesClients(w, q.localServer) ==> r.id == q.localServer
    ensures q.forcedServer != 0 && q.forcedServer in ids && TakesClients(w, q.forcedServer) ==>
              r.id == q.forcedServer || (rtmp && r.id == q.localServer)
    ensures (forall m :: m in ids ==> !Bound(w, q, rtmp, ids, m)) && Welcomes(w.servers[r.id]) ==>
              forall m :: m in ids && m != r.id && TakesClients(w, m) && Welcomes(w.servers[m]) ==>
                            LessLoaded(w, r.id, m)
    ensures (forall m :: m in ids ==> !Bound(w, q, rtmp, ids, m)) && !Welcomes(w.servers[r.id]) ==>
              && !Reserves(w.servers[r.id], Strict)
              && (forall m :: m in ids && TakesClients(w, m) ==> !Welcomes(w.servers[m]))
              && (forall m :: m in ids && m != r.id && TakesClients(w, m) && !Reserves(w.servers[m], Strict) ==>
                    Points(w, q, r.id) < Points(w, q, m)
                    || (Points(w, q, r.id) == Points(w, q, m) && LessLoaded(w, r.id, m)))
  {
    var acc := Accepted(w, ids);
    forall m ensures m in acc <==> m in ids && TakesClients(w, m) { }
    forall m | m in acc ensures StandingIs(w, q, m) { StandingSpelled(w, q, m); }
    if forall m :: m in ids ==> !Bound(w, q, rtmp, ids, m) {
      assert q.localServer in ids ==> !Bound(w, q, rtmp, ids, q.localServer);
      assert q.forcedServer in ids ==> !Bound(w, q, rtmp, ids, q.forcedServer);
      assert StandingIs(w, q, r.id);
    }
  }

  predicate StandingIs(w: World, q: Request, id: int)
    requires id in w.servers
  {
    var s := w.servers[id];
    && (StandingOf(w, q, id).Matched? <==> Welcomes(s))
    && (StandingOf(w, q, id).Closed? <==> Reserves(s, Strict))
    && (StandingOf(w, q, id).Ranked? ==> StandingOf(w, q, id).rank == Points(w, q, id))
  }

  lemma StandingSpelled(w: World, q: Request, id: int)
    requires id in w.servers
    ensures StandingIs(w, q, id)
  {
  }

  /** Why nobody wins: nobody is eligible, nobody takes clients, or everybody turns the client away. */
  lemma NobodyWins(w: World, q: Request, rtmp: bool, ids: set<int>, r: Choice)
    requires IsChoice(w, q, rtmp, ids, r)
    ensures r == NoCapacity <==> ids != {} && forall m :: m in ids ==> !TakesClients(w, m)
    ensures r == NotAvailable
       <==> ids == {} || ((exists m :: m in ids && TakesClients(w, m))
                          && forall m :: m in ids && TakesClients(w, m) ==>
                               Reserves(w.servers[m], Strict) && !Bound(w, q, rtmp, ids, m))
  {
    var acc := Accepted(w, ids);
    forall m ensures m in acc <==> m in ids && TakesClients(w, m) { }
    forall m | m in acc ensures StandingIs(w, q, m) { StandingSpelled(w, q, m); }
    if ids != {} && acc != {} {
      var some :| some in acc;
      assert some in ids && TakesClients(w, some);
    }
  }

  // ---------------------------------------------------------------- the selection itself

  predicate Sorted(w: World, ids: seq<int>) {
    forall i, j :: 0 <= i < j < |ids| ==> Lighter(w, ids[i], ids[j])
  }

  function Set(ids: seq<int>): set<int> { set id | id in ids }

  /** array_multisort by capacity, then by id. */
  method SortByLoad(w: World, ids: seq<int>) returns (r: seq<int>)
    requires NoRepeats(ids)
    ensures Sorted(w, r) && Set(r) == Set(ids)
  {
    r := [];
    for i := 0 to |ids|
      invariant Sorted(w, r) && Set(r) == Set(ids[..i])
    {
      var x := ids[i];
      assert x !in Set(ids[..i]);
      var k := 0;
      while k < |r| && Lighter(w, r[k], x)
        invariant 0 <= k <= |r| && forall j :: 0 <= j < k ==> Lighter(w, r[j], x)
      {
        k := k + 1;
      }
      forall j | k <= j < |r| ensures Lighter(w, x, r[j]) {
        assert r[j] in Set(ids[..i]);
      }
      assert ids[..i + 1] == ids[..i] + [x];
      var inserted := r[..k] + [x] + r[k..];
      assert Set(inserted) == Set(r) + {x};
      r := inserted;
    }
    assert ids[..|ids|] == ids;
  }

  method AcceptServers(w: World, ids: seq<int>) returns (r: seq<int>)
    requires NoRepeats(ids)
    ensures NoRepeats(r) && Set(r) == Accepted(w, Set(ids))
  {
    r := [];
    for i := 0 to |ids|
      invariant NoRepeats(r) && Set(r) == Accepted(w, Set(ids[..i]))
    {
      var x := ids[i];
      assert ids[..i + 1] == ids[..i] + [x];
      assert x !in Set(r);
      assert Set(ids[..i + 1]) == Set(ids[..i]) + {x};
      if HasRoom(w, x) {
        assert Set(r + [x]) == Set(r) + {x};
        r := r + [x];
      }
    }
    assert ids[..|ids|] == ids;
  }

  /**
  The walk over the accepted servers, lightest first: the first match wins, strict servers drop out, others are
  ranked.
  */
  method Walk(w: World, q: Request, acc: seq<int>) returns (redirect: int, ranked: seq<int>)
    requires 0 !in acc && forall id :: id in acc ==> id in w.servers
    ensures redirect != 0 ==> exists k :: 0 <= k < |acc| && acc[k] == redirect && StandingOf(w, q, redirect).Matched?
                                          && forall j :: 0 <= j < k ==> !StandingOf(w, q, acc[j]).Matched?
    ensures redirect == 0 ==> forall id :: id in acc ==> !StandingOf(w, q, id).Matched?
    ensures redirect == 0 ==> forall id :: id in ranked <==> id in acc && StandingOf(w, q, id).Ranked?
    ensures Sorted(w, acc) ==> Sorted(w, ranked)
    ensures forall id :: id in ranked ==> id in acc && StandingOf(w, q, id).Ranked?
  {
    redirect, ranked := 0, [];
    for i := 0 to |acc|
      invariant redirect == 0
      invariant forall j :: 0 <= j < i ==> !StandingOf(w, q, acc[j]).Matched?
      invariant forall id :: id in ranked <==> id in acc[..i] && StandingOf(w, q, id).Ranked?
      invariant Sorted(w, acc) ==> Sorted(w, ranked)
    {
      assert acc[i] in acc;
      match StandingOf(w, q, acc[i])
      case Matched =>
        redirect := acc[i];
        return;
      case Closed =>
        assert acc[..i + 1] == acc[..i] + [acc[i]];
      case Ranked(_) =>
        assert acc[..i + 1] == acc[..i] + [acc[i]];
        assert Sorted(w, acc) ==> forall id :: id in ranked ==> Lighter(w, id, acc[i]);
        ranked := ranked + [acc[i]];
    }
  }

  /** The first server of the lowest rank. */
  method FirstOfLowestRank(w: World, q: Request, ranked: seq<int>) returns (best: int)
    requires ranked != [] && Sorted(w, ranked)
    requires forall id :: id in ranked ==> id in w.servers && StandingOf(w, q, id).Ranked?
    ensures best in ranked && forall id :: id in ranked && id != best ==> Better(w, q, best, id)
  {
    var k := 0;
    for i := 1 to |ranked|
      invariant 0 <= k < i
      invariant forall j :: 0 <= j < i && j != k ==> Better(w, q, ranked[k], ranked[j])
    {
      if StandingOf(w, q, ranked[i]).rank < StandingOf(w, q, ranked[k]).rank {
        k := i;
      }
    }
    best := ranked[k];
  }

  /** The selection from a shuffled list is the choice from the set of its members. */
  method SelectServer(w: World, q: Request, extension: string, shuffled: seq<int>) returns (r: Choice)
    requires NoRepeats(shuffled) && 0 !in shuffled
    ensures IsChoice(w, q, extension == "rtmp", Set(shuffled), r)
  {
    if shuffled == [] {
      return NotAvailable;
    }
    assert shuffled[0] in Set(shuffled);
    var accepted := AcceptServers(w, shuffled);
    var sorted := SortByLoad(w, accepted);
    ghost var acc := Accepted(w, Set(shuffled));
    assert forall id :: id in sorted <==> id in acc by { assert Set(sorted) == acc; }
    if sorted == [] {
      assert acc == {};
      return NoCapacity;
    }
    assert sorted[0] in acc;
    if extension == "rtmp" && q.localServer in sorted {
      return Chosen(q.localServer);
    }
    if q.forcedServer != 0 && q.forcedServer in sorted {
      return Chosen(q.forcedServer);
    }
    var redirect, ranked := Walk(w, q, sorted);
    if ranked == [] && redirect == 0 {
      return NotAvailable;
    }
    if redirect == 0 {
      redirect := FirstOfLowestRank(w, q, ranked);
    }
    return Chosen(redirect);
  }

  /** A shuffle keeps the members and repeats none. */
  predicate IsShuffle(s: seq<int>, t: seq<int>) { NoRepeats(s) ==> NoRepeats(t) && Set(t) == Set(s) }

  function EligibleSet(ids: seq<int>, w: World, q: Request): set<int> {
    set id | id in ids && Eligible(w, q, id)
  }

  lemma {:induction false} FilteredMeans(listing: seq<int>, w: World, q: Request)
    ensures Set(Filtered(listing, w, q)) == EligibleSet(listing, w, q)
    ensures NoRepeats(listing) ==> NoRepeats(Filtered(listing, w, q))
  {
    if listing != [] {
      var before, last := listing[..|listing| - 1], listing[|listing| - 1];
      assert listing == before + [last];
      FilteredMeans(before, w, q);
      var added: seq<int> := if Eligible(w, q, last) then [last] else [];
      assert Set(Filtered(before, w, q) + added) == Set(Filtered(before, w, q)) + Set(added);
      assert EligibleSet(listing, w, q) == EligibleSet(before, w, q) + Set(added);
      assert last in Set(Filtered(before, w, q)) ==> last in before;
    }
  }

  /** The whole request: whatever the shuffle does, the answer is the one choice among the eligible servers. */
  method ChannelInfo(listing: seq<int>, w: World, q: Request, shuffle: seq<int> -> seq<int>) returns (r: Choice)
    requires NoRepeats(listing) && 0 !in listing && forall s :: IsShuffle(s, shuffle(s))
    ensures q.directSource && !q.kind.Archive? ==> r == DirectSource
    ensures !q.directSource && !q.kind.Archive? ==>
              IsChoice(w, q, q.extension == "rtmp" && !Altered(w, q, listing), EligibleSet(listing, w, q), r)
    ensures q.kind.Archive? ==>
              IsChoice(w, q, q.extension == "rtmp", EligibleSet([q.kind.archiveServer], w, q), r)
  {
    match q.kind
    case Archive(server, has) =>
      var ids := if has && 0 < server && server in w.servers then [server] else [];
      assert Set(ids) == EligibleSet([server], w, q);
      r := SelectServer(w, q, q.extension, ids);
    case _ =>
      if q.directSource {
        return DirectSource;
      }
      var ids, extension := EligibleServers(listing, w, q);
      FilteredMeans(listing, w, q);
      assert forall id :: id in ids ==> id in Set(ids);
      var shuffled := shuffle(ids);
      assert forall id :: id in shuffled ==> id in Set(shuffled);
      r := SelectServer(w, q, extension, shuffled);
  }
}
