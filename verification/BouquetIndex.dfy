/** Bouquets, the inverse index from streams to bouquets, and the global channel order. */
module BouquetIndex {
  import opened Collections

  datatype Bouquet = Bouquet(channels: seq<int>, radios: seq<int>, movies: seq<int>, series: seq<int>)

  // The bouquets in bouquet order, each with its id.
  datatype Listed = Listed(id: int, bouquet: Bouquet)

  type Index = map<int, seq<int>>

  predicate InIndex(m: Index, stream: int, id: int) { stream in m && id in m[stream] }

  function EpisodesOf(episodes: map<int, seq<int>>, series: int): seq<int> {
    if series in episodes then episodes[series] else []
  }

  predicate InSeries(episodes: map<int, seq<int>>, series: seq<int>, stream: int) {
    exists x :: x in series && stream in EpisodesOf(episodes, x)
  }

  function Streams(b: Bouquet): seq<int> { b.channels + b.movies + b.radios }

  /** The bouquet carries the stream, by itself or as an episode of a series. */
  predicate Carries(b: Bouquet, episodes: map<int, seq<int>>, stream: int) {
    stream in Streams(b) || InSeries(episodes, b.series, stream)
  }

  // ---------------------------------------------------------------- building the index

  method IndexStreams(m: Index, streams: seq<int>, id: int) returns (r: Index)
    ensures forall s, i :: InIndex(r, s, i) <==> InIndex(m, s, i) || (i == id && s in streams)
  {
    r := m;
    for k := 0 to |streams|
      invariant forall s, i :: InIndex(r, s, i) <==> InIndex(m, s, i) || (i == id && s in streams[..k])
    {
      assert streams[..k + 1] == streams[..k] + [streams[k]];
      if streams[k] !in r {
        r := r[streams[k] := []];
      }
      r := r[streams[k] := r[streams[k]] + [id]];
    }
    assert streams[..|streams|] == streams;
  }

  method IndexSeries(m: Index, series: seq<int>, episodes: map<int, seq<int>>, id: int) returns (r: Index)
    ensures forall s, i :: InIndex(r, s, i) <==> InIndex(m, s, i) || (i == id && InSeries(episodes, series, s))
  {
    r := m;
    for k := 0 to |series|
      invariant forall s, i :: InIndex(r, s, i) <==> InIndex(m, s, i) || (i == id && InSeries(episodes, series[..k], s))
    {
      assert series[..k + 1] == series[..k] + [series[k]];
      assert forall s :: InSeries(episodes, series[..k + 1], s)
                    <==> InSeries(episodes, series[..k], s) || s in EpisodesOf(episodes, series[k]);
      r := IndexStreams(r, EpisodesOf(episodes, series[k]), id);
    }
    assert series[..|series|] == series;
  }

  /** The cache job's nested loops. */
  method BuildIndex(bs: seq<Listed>, episodes: map<int, seq<int>>) returns (m: Index)
    ensures forall s, i :: InIndex(m, s, i) <==> exists b :: b in bs && b.id == i && Carries(b.bouquet, episodes, s)
  {
    m := map[];
    for k := 0 to |bs|
      invariant forall s, i ::
                  InIndex(m, s, i) <==> exists b :: b in bs[..k] && b.id == i && Carries(b.bouquet, episodes, s)
    {
      var x := bs[k];
      assert bs[..k + 1] == bs[..k] + [x];
      var m1 := IndexStreams(m, x.bouquet.channels, x.id);
      var m2 := IndexStreams(m1, x.bouquet.radios, x.id);
      var m3 := IndexStreams(m2, x.bouquet.movies, x.id);
      var m4 := IndexSeries(m3, x.bouquet.series, episodes, x.id);
      forall s, i
        ensures InIndex(m4, s, i) <==> exists b :: b in bs[..k + 1] && b.id == i && Carries(b.bouquet, episodes, s)
      {
        assert InIndex(m4, s, i) <==> InIndex(m, s, i) || (i == x.id && Carries(x.bouquet, episodes, s));
      }
      m := m4;
    }
    assert bs[..|bs|] == bs;
  }

  // ---------------------------------------------------------------- the user's own lists

  /** The list without its repetitions. */
  function Firsts(xs: seq<int>): seq<int> {
    if xs == [] then []
    else
      var front, last := xs[..|xs| - 1], xs[|xs| - 1];
      if last in front then Firsts(front) else Firsts(front) + [last]
  }

  method Unique(xs: seq<int>) returns (r: seq<int>)
    ensures r == Firsts(xs)
    ensures forall x :: x in r <==> x in xs
    ensures NoRepeats(r)
  {
    r := [];
    for k := 0 to |xs|
      invariant r == Firsts(xs[..k])
      invariant forall x :: x in r <==> x in xs[..k]
      invariant NoRepeats(r)
    {
      assert xs[..k + 1] == xs[..k] + [xs[k]] && xs[..k + 1][..k] == xs[..k];
      if xs[k] !in r {
        r := r + [xs[k]];
      }
    }
    assert xs[..|xs|] == xs;
  }

  /** The place where an id is first listed. */
  predicate FirstAt(xs: seq<int>, p: nat, x: int) { p < |xs| && xs[p] == x && x !in xs[..p] }

  /** Dropping repetitions keeps every id once, in the sequence of their first places. */
  lemma {:induction false} FirstsKeepOrder(xs: seq<int>)
    ensures forall x :: x in Firsts(xs) <==> x in xs
    ensures NoRepeats(Firsts(xs))
    ensures forall i, j, p, q ::
              (0 <= i < j < |Firsts(xs)| && FirstAt(xs, p, Firsts(xs)[i]) && FirstAt(xs, q, Firsts(xs)[j])) ==> p < q
  {
    if xs != [] {
      var front, last := xs[..|xs| - 1], xs[|xs| - 1];
      FirstsKeepOrder(front);
      assert xs == front + [last];
      var r, f := Firsts(xs), Firsts(front);
      forall i, j, p, q | 0 <= i < j < |r| && FirstAt(xs, p, r[i]) && FirstAt(xs, q, r[j]) ensures p < q {
        assert r[i] == f[i] && f[i] in f && f[i] in front;
        FirstInFront(front, last, p, f[i]);
        if j < |f| {
          assert r[j] == f[j] && f[j] in f && f[j] in front;
          FirstInFront(front, last, q, f[j]);
        } else {
          assert q == |front|;
        }
      }
    }
  }

  lemma FirstInFront(front: seq<int>, last: int, p: nat, x: int)
    requires x in front && FirstAt(front + [last], p, x)
    ensures FirstAt(front, p, x)
  {
    assert (front + [last])[..|front|] == front;
    assert p < |front|;
    assert (front + [last])[..p] == front[..p];
  }

  /** Some bouquet of the user lists the stream itself, or the series. */
  predicate UserHasStream(user: seq<int>, table: map<int, Bouquet>, stream: int) {
    exists id :: id in user && id in table && stream in Streams(table[id])
  }

  predicate UserHasSeries(user: seq<int>, table: map<int, Bouquet>, series: int) {
    exists id :: id in user && id in table && series in table[id].series
  }

  lemma OneMoreBouquet(user: seq<int>, id: int, table: map<int, Bouquet>, x: int)
    ensures UserHasStream(user + [id], table, x)
           <==> UserHasStream(user, table, x) || (id in table && x in Streams(table[id]))
    ensures UserHasSeries(user + [id], table, x)
           <==> UserHasSeries(user, table, x) || (id in table && x in table[id].series)
  {
    assert id in user + [id];
    assert forall i :: i in user ==> i in user + [id];
  }

  /** The channel and series ids of a user, merged over the user's bouquets; unknown bouquets are skipped. */
  method UserIds(user: seq<int>, table: map<int, Bouquet>) returns (channels: seq<int>, series: seq<int>)
    ensures forall s :: s in channels <==> UserHasStream(user, table, s)
    ensures forall s :: s in series <==> UserHasSeries(user, table, s)
    ensures NoRepeats(channels)
  {
    channels, series := [], [];
    for k := 0 to |user|
      invariant forall s :: s in channels <==> UserHasStream(user[..k], table, s)
      invariant forall s :: s in series <==> UserHasSeries(user[..k], table, s)
    {
      assert user[..k + 1] == user[..k] + [user[k]];
      forall s
        ensures UserHasStream(user[..k + 1], table, s)
           <==> UserHasStream(user[..k], table, s) || (user[k] in table && s in Streams(table[user[k]]))
        ensures UserHasSeries(user[..k + 1], table, s)
           <==> UserHasSeries(user[..k], table, s) || (user[k] in table && s in table[user[k]].series)
      {
        OneMoreBouquet(user[..k], user[k], table, s);
      }
      if user[k] in table {
        channels := channels + Streams(table[user[k]]);
        series := series + table[user[k]].series;
      }
    }
    assert user[..|user|] == user;
    channels := Unique(channels);
    series := Unique(series);
  }

  /** The bouquets by id, as the other reader of the same table holds them. */
  predicate SameTable(bs: seq<Listed>, table: map<int, Bouquet>) {
    && (forall b :: b in bs ==> b.id in table && table[b.id] == b.bouquet)
    && (forall id :: id in table ==> Listed(id, table[id]) in bs)
  }

  /**
  The two entitlement tests agree: the user's bouquets meet the index entry of a stream if and only if the stream is
  among the user's channels or an episode of one of the user's series.
  */
  lemma EntitlementAgrees(bs: seq<Listed>, table: map<int, Bouquet>, episodes: map<int, seq<int>>, m: Index,
                          user: seq<int>, channels: seq<int>, series: seq<int>, stream: int)
    requires SameTable(bs, table)
    requires forall s, i :: InIndex(m, s, i) <==> exists b :: b in bs && b.id == i && Carries(b.bouquet, episodes, s)
    requires forall s :: s in channels <==> UserHasStream(user, table, s)
    requires forall s :: s in series <==> UserHasSeries(user, table, s)
    ensures (exists id :: id in user && InIndex(m, stream, id))
           <==> stream in channels || InSeries(episodes, series, stream)
  {
    if id :| id in user && InIndex(m, stream, id) {
      var b :| b in bs && b.id == id && Carries(b.bouquet, episodes, stream);
      assert table[id] == b.bouquet;
      if stream !in Streams(b.bouquet) {
        var x :| x in b.bouquet.series && stream in EpisodesOf(episodes, x);
        assert x in series;
      }
    }
    if stream in channels {
      var id :| id in user && id in table && stream in Streams(table[id]);
      assert Listed(id, table[id]) in bs && InIndex(m, stream, id);
    } else if InSeries(episodes, series, stream) {
      var x :| x in series && stream in EpisodesOf(episodes, x);
      var id :| id in user && id in table && x in table[id].series;
      assert InSeries(episodes, table[id].series, stream);
      assert Listed(id, table[id]) in bs && InIndex(m, stream, id);
    }
  }

  // ---------------------------------------------------------------- the channel order

  datatype Stream = Stream(id: int, kind: int)

  /** The streams of these kinds that no bouquet has listed, in their own order. */
  function Leftovers(ids: seq<int>, streams: seq<Stream>, kinds: set<int>): seq<int> {
    if streams == [] then []
    else
      var last := streams[|streams| - 1];
      Leftovers(ids, streams[..|streams| - 1], kinds)
      + (if last.kind in kinds && last.id !in ids then [last.id] else [])
  }

  method WithLeftovers(ids: seq<int>, streams: seq<Stream>, kinds: set<int>) returns (r: seq<int>)
    ensures r == ids + Leftovers(ids, streams, kinds)
  {
    r := ids;
    for k := 0 to |streams|
      invariant r == ids + Leftovers(ids, streams[..k], kinds)
    {
      assert streams[..k + 1][..k] == streams[..k];
      if streams[k].kind in kinds && streams[k].id !in ids {
        r := r + [streams[k].id];
      }
    }
    assert streams[..|streams|] == streams;
  }

  lemma {:induction false} LeftoversMean(ids: seq<int>, streams: seq<Stream>, kinds: set<int>)
    ensures forall id :: id in Leftovers(ids, streams, kinds) <==>
                         id !in ids && exists x :: x in streams && x.kind in kinds && x.id == id
  {
    if streams != [] {
      var front, last := streams[..|streams| - 1], streams[|streams| - 1];
      LeftoversMean(ids, front, kinds);
      assert streams == front + [last];
    }
  }

  // The ids that bouquets list, kind by kind, in bouquet order.
  datatype Listing = Listing(channels: seq<int>, radios: seq<int>, movies: seq<int>, episodes: seq<int>)

  /** Every kind's listed ids and then its leftovers: channels, radios, films, episodes. */
  function Arranged(l: Listing, streams: seq<Stream>): seq<int> {
    l.channels + Leftovers(l.channels, streams, {1, 3}) + (l.radios + Leftovers(l.radios, streams, {4}))
    + (l.movies + Leftovers(l.movies, streams, {2})) + (l.episodes + Leftovers(l.episodes, streams, {5}))
  }

  /** The order used unless channels are numbered by hand. */
  method BuildOrder(l: Listing, streams: seq<Stream>) returns (order: seq<int>)
    ensures order == Firsts(Arranged(l, streams))
    ensures NoRepeats(order)
  {
    var a := WithLeftovers(l.channels, streams, {1, 3});
    var b := WithLeftovers(l.radios, streams, {4});
    var c := WithLeftovers(l.movies, streams, {2});
    var d := WithLeftovers(l.episodes, streams, {5});
    order := Unique(a + b + c + d);
  }

  /** The order knows every stream of the five kinds and every id a bouquet lists, and nothing else. */
  lemma OrderMembers(l: Listing, streams: seq<Stream>, id: int)
    ensures id in Firsts(Arranged(l, streams))
       <==> Known(l, streams, id)
  {
    FirstsKeepOrder(Arranged(l, streams));
    LeftoversMean(l.channels, streams, {1, 3});
    LeftoversMean(l.radios, streams, {4});
    LeftoversMean(l.movies, streams, {2});
    LeftoversMean(l.episodes, streams, {5});
  }

  // The four parts of the order.
  datatype Part = Channels | Radios | Films | Episodes

  function ListedIn(l: Listing, part: Part): seq<int> {
    match part
    case Channels => l.channels
    case Radios => l.radios
    case Films => l.movies
    case Episodes => l.episodes
  }

  /** Live and created channels are of kind 1 and 3, films of kind 2, radios of kind 4 and episodes of kind 5. */
  predicate OfPart(kind: int, part: Part) {
    match part
    case Channels => kind == 1 || kind == 3
    case Radios => kind == 4
    case Films => kind == 2
    case Episodes => kind == 5
  }

  /** The id belongs to the part: a bouquet lists it there, or some stream of the part's kinds has it. */
  predicate Belongs(l: Listing, streams: seq<Stream>, part: Part, id: int) {
    id in ListedIn(l, part) || exists x :: x in streams && x.id == id && OfPart(x.kind, part)
  }

  function Rank(part: Part): nat {
    match part case Channels => 0 case Radios => 1 case Films => 2 case Episodes => 3
  }

  /** The order up to and including the part. */
  function UpTo(l: Listing, streams: seq<Stream>, part: Part): seq<int> {
    var a := l.channels + Leftovers(l.channels, streams, {1, 3});
    var b := a + (l.radios + Leftovers(l.radios, streams, {4}));
    var c := b + (l.movies + Leftovers(l.movies, streams, {2}));
    match part
    case Channels => a
    case Radios => b
    case Films => c
    case Episodes => c + (l.episodes + Leftovers(l.episodes, streams, {5}))
  }

  lemma UpToMeans(l: Listing, streams: seq<Stream>, part: Part, id: int)
    ensures part.Channels? ==> ListedIn(l, part) <= Arranged(l, streams)
    ensures !part.Channels? ==> UpTo(l, streams, PartBefore(part)) + ListedIn(l, part) <= Arranged(l, streams)
    ensures UpTo(l, streams, part) <= Arranged(l, streams)
    ensures id in UpTo(l, streams, part) <==> exists p :: Rank(p) <= Rank(part) && Belongs(l, streams, p, id)
  {
    LeftoversMean(l.channels, streams, {1, 3});
    LeftoversMean(l.radios, streams, {4});
    LeftoversMean(l.movies, streams, {2});
    LeftoversMean(l.episodes, streams, {5});
    assert Belongs(l, streams, Channels, id) <==> id in l.channels + Leftovers(l.channels, streams, {1, 3});
    assert Belongs(l, streams, Radios, id) <==> id in l.radios + Leftovers(l.radios, streams, {4});
    assert Belongs(l, streams, Films, id) <==> id in l.movies + Leftovers(l.movies, streams, {2});
    assert Belongs(l, streams, Episodes, id) <==> id in l.episodes + Leftovers(l.episodes, streams, {5});
    assert Rank(Channels) == 0 && Rank(Radios) == 1 && Rank(Films) == 2 && Rank(Episodes) == 3;
  }

  /** What a beginning of a list holds comes before what it does not hold. */
  lemma BeginningFirst(all: seq<int>, prefix: seq<int>, i: nat, j: nat)
    requires prefix <= all && i < |Firsts(all)| && j < |Firsts(all)|
    requires Firsts(all)[i] in prefix && Firsts(all)[j] !in prefix
    ensures i < j
  {
    var o := Firsts(all);
    FirstsKeepOrder(all);
    assert o[i] in o && o[j] in o;
    var p := FirstPlace(all, o[i]);
    var q := FirstPlace(all, o[j]);
    var c :| 0 <= c < |prefix| && prefix[c] == o[i];
    assert all[c] == o[i];
    assert p <= c;
    assert forall n :: 0 <= n < |prefix| ==> all[n] == prefix[n];
  }

  /**
  Channels come before radios, radios before films, films before episodes; an id of several parts goes with the
  first.
  */
  lemma PartsInSequence(l: Listing, streams: seq<Stream>, part: Part, i: nat, j: nat)
    requires i < |Firsts(Arranged(l, streams))| && j < |Firsts(Arranged(l, streams))|
    requires Belongs(l, streams, part, Firsts(Arranged(l, streams))[i])
    requires forall p :: Rank(p) <= Rank(part) ==> !Belongs(l, streams, p, Firsts(Arranged(l, streams))[j])
    ensures i < j
  {
    var o := Firsts(Arranged(l, streams));
    UpToMeans(l, streams, part, o[i]);
    UpToMeans(l, streams, part, o[j]);
    BeginningFirst(Arranged(l, streams), UpTo(l, streams, part), i, j);
  }

  /** Within a part what some bouquet lists there comes before what none lists there. */
  lemma ListedBeforeLeftover(l: Listing, streams: seq<Stream>, part: Part, i: nat, j: nat)
    requires i < |Firsts(Arranged(l, streams))| && j < |Firsts(Arranged(l, streams))|
    requires Firsts(Arranged(l, streams))[i] in ListedIn(l, part)
    requires Firsts(Arranged(l, streams))[j] !in ListedIn(l, part)
    requires forall p :: Rank(p) < Rank(part) ==> !Belongs(l, streams, p, Firsts(Arranged(l, streams))[j])
    ensures i < j
  {
    var other := Firsts(Arranged(l, streams))[j];
    UpToMeans(l, streams, part, other);
    if part.Channels? {
      BeginningFirst(Arranged(l, streams), l.channels, i, j);
    } else {
      UpToMeans(l, streams, PartBefore(part), other);
      BeginningFirst(Arranged(l, streams), UpTo(l, streams, PartBefore(part)) + ListedIn(l, part), i, j);
    }
  }

  function PartBefore(part: Part): Part { if part.Episodes? then Films else if part.Films? then Radios else Channels }

  lemma {:induction false} FirstPlace(xs: seq<int>, x: int) returns (p: nat)
    requires x in xs
    ensures FirstAt(xs, p, x)
  {
    var front := xs[..|xs| - 1];
    assert xs == front + [xs[|xs| - 1]];
    if x in front {
      p := FirstPlace(front, x);
      assert xs[..p] == front[..p];
    } else {
      p := |front|;
    }
  }

  // What sorting a list of channels hands back: the list itself, the list with positions and values swapped, or
  // a new list.
  datatype Sorted = Same(ids: seq<int>) | Flipped(positions: map<int, int>) | Reordered(result: seq<int>)

  /** The place where an id is last listed. */
  predicate LastAt(ids: seq<int>, p: int, id: int) { 0 <= p < |ids| && ids[p] == id && id !in ids[p + 1..] }

  /** The list with positions and values swapped: every id with its last position. */
  ghost predicate IsFlipped(ids: seq<int>, m: map<int, int>) {
    (forall id :: id in m <==> id in ids) && forall id :: id in m ==> LastAt(ids, m[id], id)
  }

  method Flip(ids: seq<int>) returns (m: map<int, int>)
    ensures IsFlipped(ids, m)
  {
    m := map[];
    for k := 0 to |ids|
      invariant IsFlipped(ids[..k], m)
    {
      var before := ids[..k];
      assert ids[..k + 1] == before + [ids[k]];
      forall id | id in m && id != ids[k] ensures LastAt(ids[..k + 1], m[id], id) {
        assert LastAt(before, m[id], id);
        assert ids[..k + 1][m[id] + 1..] == before[m[id] + 1..] + [ids[k]];
      }
      m := m[ids[k] := k];
    }
    assert ids[..|ids|] == ids;
  }

  /** The members of order that are wanted, in that order. */
  function Picked(order: seq<int>, wanted: seq<int>): seq<int> {
    if order == [] then []
    else Picked(order[..|order| - 1], wanted)
         + (if order[|order| - 1] in wanted then [order[|order| - 1]] else [])
  }

  method SortChannels(ids: seq<int>, hasOrder: bool, order: seq<int>, byBouquet: bool) returns (r: Sorted)
    ensures ids == [] || !hasOrder || byBouquet ==> r == Same(ids)
    ensures ids != [] && hasOrder && !byBouquet ==>
              if forall id :: id in ids ==> id !in order then r.Flipped? && IsFlipped(ids, r.positions)
              else r == Reordered(Picked(order, ids))
  {
    if 0 < |ids| && hasOrder && !byBouquet {
      var flipped := Flip(ids);
      var result: seq<int> := [];
      for k := 0 to |order|
        invariant result == Picked(order[..k], ids)
      {
        assert order[..k + 1][..k] == order[..k];
        var x := order[k];
        assert x in flipped <==> x in ids;
        if x in flipped {
          result := result + [x];
        } else {
          assert result + [] == result;
        }
      }
      assert order[..|order|] == order;
      PickedIsEmptyIff(order, ids);
      if |result| > 0 {
        return Reordered(result);
      }
      return Flipped(flipped);
    }
    return Same(ids);
  }

  /** Where an id stands in the order. */
  predicate At(order: seq<int>, i: nat, id: int) { i < |order| && order[i] == id }

  /**
  Sorting gives a duplicate-free rearrangement of exactly the requested channels that the order knows, standing in the
  order's own sequence.
  */
  lemma {:induction false} PickedIsReordering(order: seq<int>, ids: seq<int>)
    requires NoRepeats(order)
    ensures forall id :: id in Picked(order, ids) <==> id in order && id in ids
    ensures NoRepeats(Picked(order, ids))
    ensures forall i, j, p, q ::
              (0 <= i < j < |Picked(order, ids)| && At(order, p, Picked(order, ids)[i])
               && At(order, q, Picked(order, ids)[j]))
              ==> p < q
  {
    if order != [] {
      var front, last := order[..|order| - 1], order[|order| - 1];
      PickedIsReordering(front, ids);
      assert order == front + [last];
      var r := Picked(order, ids);
      forall i, j, p, q | 0 <= i < j < |r| && At(order, p, r[i]) && At(order, q, r[j]) ensures p < q {
        assert i < |Picked(front, ids)| && r[i] == Picked(front, ids)[i] && r[i] in front;
        assert r[i] != last && At(front, p, r[i]);
        if j < |Picked(front, ids)| {
          assert r[j] == Picked(front, ids)[j] && r[j] in front && At(front, q, r[j]);
        }
      }
    }
  }

  lemma {:induction false} PickedMembers(order: seq<int>, ids: seq<int>)
    ensures forall id :: id in Picked(order, ids) <==> id in order && id in ids
  {
    if order != [] {
      PickedMembers(order[..|order| - 1], ids);
      assert order == order[..|order| - 1] + [order[|order| - 1]];
    }
  }

  lemma PickedIsEmptyIff(order: seq<int>, ids: seq<int>)
    ensures Picked(order, ids) == [] <==> forall id :: id in ids ==> id !in order
  {
    PickedMembers(order, ids);
    var r := Picked(order, ids);
    if r != [] {
      var first := r[0];
      assert first in r;
    }
  }

  /**
  Nothing is lost if and only if the order knows every requested channel; then the swapped map never appears
  either.
  */
  lemma NothingIsLostIff(order: seq<int>, ids: seq<int>)
    requires NoRepeats(order)
    ensures (forall id :: id in ids ==> id in Picked(order, ids)) <==> forall id :: id in ids ==> id in order
    ensures ids != [] && (forall id :: id in ids ==> id in order) ==> Picked(order, ids) != []
  {
    PickedIsReordering(order, ids);
    PickedIsEmptyIff(order, ids);
    if ids != [] {
      var first := ids[0];
      assert first in ids;
    }
  }

  // ---------------------------------------------------------------- building the order and sorting by it

  /** The channel exists: some stream has its id, or a bouquet lists it. */
  predicate Known(l: Listing, streams: seq<Stream>, id: int) {
    id in l.channels + l.radios + l.movies + l.episodes || exists x :: x in streams && x.id == id && 1 <= x.kind <= 5
  }

  lemma {:induction false} CountOf(xs: seq<int>, x: int)
    requires NoRepeats(xs)
    ensures multiset(xs)[x] == if x in xs then 1 else 0
  {
    if xs != [] {
      var front, last := xs[..|xs| - 1], xs[|xs| - 1];
      assert xs == front + [last];
      CountOf(front, x);
    }
  }

  /**
  Existing channels, asked for once each, come back as a permutation in the order's sequence; unknown ones are
  left out.
  */
  lemma ExistingComeBack(l: Listing, streams: seq<Stream>, ids: seq<int>)
    ensures var r := Picked(Firsts(Arranged(l, streams)), ids);
            && NoRepeats(r) && (forall id :: id in r <==> id in ids && Known(l, streams, id))
            && (NoRepeats(ids) && (forall id :: id in ids ==> Known(l, streams, id)) ==> multiset(r) == multiset(ids))
  {
    var order := Firsts(Arranged(l, streams));
    var r := Picked(order, ids);
    FirstsKeepOrder(Arranged(l, streams));
    PickedIsReordering(order, ids);
    forall id ensures id in order <==> Known(l, streams, id) { OrderMembers(l, streams, id); }
    if NoRepeats(ids) && forall id :: id in ids ==> Known(l, streams, id) {
      forall id ensures multiset(r)[id] == multiset(ids)[id] {
        CountOf(r, id);
        CountOf(ids, id);
      }
    }
  }

  /** The cache job and the request together: what a client gets for the channels it asks for. */
  method ChannelsFor(l: Listing, streams: seq<Stream>, ids: seq<int>) returns (r: Sorted)
    ensures ids == [] ==> r == Same([])
    ensures ids != [] && (forall id :: id in ids ==> !Known(l, streams, id)) ==>
              r.Flipped? && IsFlipped(ids, r.positions)
    ensures (exists id :: id in ids && Known(l, streams, id)) ==>
              && r.Reordered? && NoRepeats(r.result)
              && (forall id :: id in r.result <==> id in ids && Known(l, streams, id))
              && (NoRepeats(ids) && (forall id :: id in ids ==> Known(l, streams, id)) ==>
                  multiset(r.result) == multiset(ids))
  {
    var order := BuildOrder(l, streams);
    r := SortChannels(ids, true, order, false);
    ExistingComeBack(l, streams, ids);
    forall id ensures id in order <==> Known(l, streams, id) { OrderMembers(l, streams, id); }
  }
}
