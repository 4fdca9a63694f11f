/** Choosing the source a stream is started from, and seeking into a created channel. */
module SourceFailover {
  import opened Collections

  // ---------------------------------------------------------------- rotation

  // An array as the language has it: slots in insertion order, each with its own key.
  datatype Slot<T> = Slot(key: nat, value: T)

  function FromList<T>(xs: seq<T>, first: nat): (r: seq<Slot<T>>)
    ensures |r| == |xs| && forall i :: 0 <= i < |r| ==> r[i] == Slot(first + i, xs[i])
  {
    seq(|xs|, i requires 0 <= i < |xs| => Slot(first + i, xs[i]))
  }

  function Values<T>(slots: seq<Slot<T>>): (r: seq<T>)
    ensures |r| == |slots| && forall i :: 0 <= i < |r| ==> r[i] == slots[i].value
  {
    seq(|slots|, i requires 0 <= i < |slots| => slots[i].value)
  }

  function Unset<T>(slots: seq<Slot<T>>, key: nat): seq<Slot<T>> {
    if slots == [] then [] else if slots[0].key == key then slots[1..] else [slots[0]] + Unset(slots[1..], key)
  }

  function Lookup<T>(slots: seq<Slot<T>>, key: nat): Option<T> {
    if slots == [] then None else if slots[0].key == key then Some(slots[0].value) else Lookup(slots[1..], key)
  }

  /** The list that begins after position k and ends with it. */
  function Rotated<T>(xs: seq<T>, k: nat): seq<T>
    requires k < |xs|
  {
    xs[k + 1..] + xs[..k + 1]
  }

  /** The slots after i turns of the loop. */
  function Turned<T>(xs: seq<T>, i: nat): seq<Slot<T>>
    requires i <= |xs|
  {
    FromList(xs[i..], i) + FromList(xs[..i], |xs|)
  }

  lemma TurnedSlots<T>(xs: seq<T>, i: nat)
    requires i < |xs|
    ensures Lookup(Turned(xs, i), i) == Some(xs[i])
    ensures Unset(Turned(xs, i), i) + [Slot(|xs| + i, xs[i])] == Turned(xs, i + 1)
  {
    var slots := Turned(xs, i);
    assert slots[0] == Slot(i, xs[i]);
    assert slots[1..] == FromList(xs[i + 1..], i + 1) + FromList(xs[..i], |xs|);
    assert FromList(xs[..i + 1], |xs|) == FromList(xs[..i], |xs|) + [Slot(|xs| + i, xs[i])];
  }

  /** Unset and push, slot by slot, up to and including position k; pushing continues the keys where they ended. */
  method Rotate<T>(xs: seq<T>, k: nat) returns (r: seq<T>)
    requires k < |xs|
    ensures r == Rotated(xs, k)
  {
    var slots, nextKey := FromList(xs, 0), |xs|;
    var i := 0;
    while i <= k
      invariant 0 <= i <= k + 1 && nextKey == |xs| + i
      invariant slots == Turned(xs, i)
    {
      TurnedSlots(xs, i);
      var x := Lookup(slots, i).value;
      slots := Unset(slots, i);
      slots := slots + [Slot(nextKey, x)];
      nextKey := nextKey + 1;
      i := i + 1;
    }
    r := Values(slots);
  }

  /** The place d + 1 steps after place k on a circle of n places. */
  function Around(n: nat, k: nat, d: nat): nat
    requires k < n && d < n
    ensures Around(n, k, d) < n
  {
    if k + 1 + d < n then k + 1 + d else k + 1 + d - n
  }

  /** Position d of the rotated list is d + 1 places after k, going round; the last position is k itself. */
  lemma RotatedAt<T>(xs: seq<T>, k: nat, d: nat)
    requires k < |xs| && d < |xs|
    ensures |Rotated(xs, k)| == |xs|
    ensures Rotated(xs, k)[d] == xs[Around(|xs|, k, d)]
    ensures Rotated(xs, k)[|xs| - 1] == xs[k]
  {
  }

  // ---------------------------------------------------------------- fail-over

  /** array_search: the first position of a value. */
  method Search<T(==)>(xs: seq<T>, x: T) returns (k: Option<nat>)
    ensures k.None? ==> x !in xs
    ensures k.Some? ==> k.value < |xs| && xs[k.value] == x && forall i :: 0 <= i < k.value ==> xs[i] != x
  {
    for i := 0 to |xs|
      invariant forall j :: 0 <= j < i ==> xs[j] != x
    {
      if xs[i] == x {
        return Some(i);
      }
    }
    return None;
  }

  /** The sources in the order they will be probed. */
  method OrderSources(sources: seq<string>, forced: string, current: string, backupFirst: bool) returns (r: seq<string>)
    ensures sources != [] && forced != "" ==> r == [forced]
    ensures sources == [] || (forced == "" && (backupFirst || current == "" || current !in sources)) ==> r == sources
    ensures forced == "" && !backupFirst && current != "" && current in sources ==>
              exists k :: 0 <= k < |sources| && sources[k] == current && current !in sources[..k]
                        && r == Rotated(sources, k)
  {
    r := sources;
    if |sources| > 0 {
      if forced != "" {
        return [forced];
      }
      if !backupFirst && current != "" {
        var k := Search(sources, current);
        if k.Some? {
          r := Rotate(sources, k.value);
          assert current !in sources[..k.value];
        }
      }
    }
  }

  /** The probe loop: the first source that answers, or none. */
  method Probe(sources: seq<string>, answers: string -> bool) returns (r: Option<nat>)
    ensures r.None? ==> forall s :: s in sources ==> !answers(s)
    ensures r.Some? ==> r.value < |sources| && answers(sources[r.value])
                        && forall i :: 0 <= i < r.value ==> !answers(sources[i])
  {
    for i := 0 to |sources|
      invariant forall j :: 0 <= j < i ==> !answers(sources[j])
    {
      if answers(sources[i]) {
        return Some(i);
      }
    }
    return None;
  }

  /** The d-th source after k answers and no earlier one does. */
  predicate FirstAround(sources: seq<string>, k: nat, d: nat, answers: string -> bool)
    requires k < |sources|
  {
    && d < |sources| && answers(sources[Around(|sources|, k, d)])
    && forall j: nat :: j < d ==> !answers(sources[Around(|sources|, k, j)])
  }

  /** The position the current source was found at. */
  predicate FoundAt(sources: seq<string>, current: string, k: nat) {
    k < |sources| && sources[k] == current && current !in sources[..k]
  }

  /** Probing a rotated list tries the sources round the circle, the current one last. */
  lemma ProbedAround(sources: seq<string>, k: nat, answers: string -> bool, hit: Option<nat>)
    requires k < |sources|
    requires hit.None? ==> forall s :: s in Rotated(sources, k) ==> !answers(s)
    requires hit.Some? ==> hit.value < |sources| && answers(Rotated(sources, k)[hit.value])
                           && forall i :: 0 <= i < hit.value ==> !answers(Rotated(sources, k)[i])
    ensures hit.None? ==> forall s :: s in sources ==> !answers(s)
    ensures hit.Some? ==> FirstAround(sources, k, hit.value, answers)
  {
    if hit.None? {
      assert sources == sources[..k + 1] + sources[k + 1..];
      assert forall s :: s in sources ==> s in Rotated(sources, k);
    } else {
      forall d: nat | d < |sources| ensures Rotated(sources, k)[d] == sources[Around(|sources|, k, d)]
      { RotatedAt(sources, k, d); }
    }
  }

  /** The d-th source answers and no earlier one does. */
  predicate FirstIn(sources: seq<string>, d: nat, answers: string -> bool) {
    d < |sources| && answers(sources[d]) && forall j :: 0 <= j < d ==> !answers(sources[j])
  }

  /** The list is tried from its beginning: backups are preferred, or there is no current source that is on the list. */
  predicate FromTheTop(sources: seq<string>, current: string, backupFirst: bool) {
    backupFirst || current == "" || current !in sources
  }

  /**
  Ordering and probing together.  A forced source is the only candidate; otherwise the first source that answers is
  taken, counting from the top or, if there is a current source, round the circle from the one after it.
  */
  method FailOver(sources: seq<string>, forced: string, current: string, backupFirst: bool, answers: string -> bool)
      returns (r: Option<string>)
    ensures sources == [] ==> r == None
    ensures sources != [] && forced != "" ==> r == if answers(forced) then Some(forced) else None
    ensures forced == "" ==> (r.None? <==> forall s :: s in sources ==> !answers(s))
    ensures forced == "" && r.Some? && FromTheTop(sources, current, backupFirst) ==>
              exists d: nat :: FirstIn(sources, d, answers) && r.value == sources[d]
    ensures forced == "" && r.Some? && !FromTheTop(sources, current, backupFirst) ==>
              exists k: nat, d: nat :: FoundAt(sources, current, k) && FirstAround(sources, k, d, answers)
                                       && r.value == sources[Around(|sources|, k, d)]
  {
    var order := OrderSources(sources, forced, current, backupFirst);
    var hit := Probe(order, answers);
    r := if hit.Some? then Some(order[hit.value]) else None;
    if forced == "" {
      if FromTheTop(sources, current, backupFirst) {
        assert order == sources;
        assert hit.Some? ==> FirstIn(sources, hit.value, answers);
      } else {
        ghost var k :| 0 <= k < |sources| && sources[k] == current && current !in sources[..k]
                       && order == Rotated(sources, k);
        ProbedAround(sources, k, answers, hit);
        if hit.Some? {
          RotatedAt(sources, k, hit.value);
          assert FoundAt(sources, current, k);
        }
      }
    }
  }

  // ---------------------------------------------------------------- seeking into a created channel

  function Total(items: seq<string>, seconds: map<string, int>): int
    requires forall p :: p in items ==> p in seconds
  {
    if items == [] then 0 else Total(items[..|items| - 1], seconds) + seconds[items[|items| - 1]]
  }

  predicate Playable(items: seq<string>, seconds: map<string, int>) {
    forall p :: p in items ==> p in seconds && seconds[p] > 0
  }

  /** Position j of the list is the item playing at this time. */
  predicate PlaysAt(items: seq<string>, seconds: map<string, int>, time: int, j: nat) {
    && Playable(items, seconds) && j < |items|
    && Total(items[..j], seconds) <= time < Total(items[..j], seconds) + seconds[items[j]]
  }

  /** A line that names no path; a lone zero counts as none. */
  predicate NoPath(line: string) { line == "" || line == "0" }

  /** The list minus the lines without a path. */
  function NonBlank(lines: seq<string>): seq<string> {
    if lines == [] then []
    else NonBlank(lines[..|lines| - 1]) + (if NoPath(lines[|lines| - 1]) then [] else [lines[|lines| - 1]])
  }

  /** One line: without a path it goes, otherwise it stays. */
  lemma NonBlankOfOne(line: string)
    ensures NonBlank([line]) == if |line| == 0 || line == ['0'] then [] else [line]
  {
    assert [line][..0] == [];
  }

  /** And line by line: lists are walked one after the other. */
  lemma {:induction false} NonBlankOfTwo(a: seq<string>, b: seq<string>)
    ensures NonBlank(a + b) == NonBlank(a) + NonBlank(b)
  {
    if b == [] {
      assert a + b == a;
    } else {
      assert (a + b)[..|a + b| - 1] == a + b[..|b| - 1];
      NonBlankOfTwo(a, b[..|b| - 1]);
    }
  }

  // The running values of the walk.
  datatype Walk = Walk(timer: int, output: seq<string>, offset: int, valid: bool)

  /** One item: it is kept if it ends after startPos, and its beginning is the offset if it plays then. */
  function WalkedOn(w: Walk, path: string, seconds: map<string, int>, startPos: int): Walk {
    if path !in seconds || seconds[path] == 0 then w.(valid := false)
    else
      var end := w.timer + seconds[path];
      Walk(end, if startPos < end then w.output + [path] else w.output,
           if w.timer <= startPos < end then w.timer else w.offset, w.valid)
  }

  /** Walk the item list of a created channel and keep what is still to be played at startPos seconds. */
  function Walked(items: seq<string>, seconds: map<string, int>, startPos: int): Walk {
    if items == [] then Walk(0, [], 0, true)
    else WalkedOn(Walked(items[..|items| - 1], seconds, startPos), items[|items| - 1], seconds, startPos)
  }

  lemma WalkedSnoc(lines: seq<string>, i: nat, seconds: map<string, int>, startPos: int)
    requires i < |lines|
    ensures var before := Walked(NonBlank(lines[..i]), seconds, startPos);
            Walked(NonBlank(lines[..i + 1]), seconds, startPos)
            == if NoPath(lines[i]) then before else WalkedOn(before, lines[i], seconds, startPos)
  {
    var done := NonBlank(lines[..i]);
    assert lines[..i + 1][..i] == lines[..i];
    if NoPath(lines[i]) {
      assert done + [] == done;
    } else {
      assert (done + [lines[i]])[..|done|] == done;
    }
  }

  method SeekOn(w: Walk, path: string, seconds: map<string, int>, startPos: int) returns (r: Walk)
    ensures r == WalkedOn(w, path, seconds, startPos)
  {
    var timer, output, offset, valid := w.timer, w.output, w.offset, w.valid;
    if path in seconds && seconds[path] != 0 {
      var duration := seconds[path];
      if timer <= startPos && startPos < timer + duration {
        offset := timer;
        output := output + [path];
      } else if startPos < timer + duration {
        output := output + [path];
      }
      timer := timer + duration;
    } else {
      valid := false;
    }
    r := Walk(timer, output, offset, valid);
  }

  /** An item without a known duration makes the result unusable; the walk goes on all the same. */
  method Seek(lines: seq<string>, seconds: map<string, int>, startPos: int)
        returns (output: seq<string>, offset: int, valid: bool)
    ensures var w := Walked(NonBlank(lines), seconds, startPos);
            output == w.output && offset == w.offset && valid == w.valid
  {
    var w := Walk(0, [], 0, true);
    for i := 0 to |lines|
      invariant w == Walked(NonBlank(lines[..i]), seconds, startPos)
    {
      WalkedSnoc(lines, i, seconds, startPos);
      if !(lines[i] == "" || lines[i] == "0") {
        w := SeekOn(w, lines[i], seconds, startPos);
      }
    }
    assert lines[..|lines|] == lines;
    output, offset, valid := w.output, w.offset, w.valid;
  }

  /** With positive durations the walk is valid, and it is over or not according to the total. */
  lemma {:induction false} WalkBeforeStart(items: seq<string>, seconds: map<string, int>, startPos: int)
    requires Playable(items, seconds)
    ensures Walked(items, seconds, startPos).timer == Total(items, seconds)
    ensures Walked(items, seconds, startPos).valid
    ensures Total(items, seconds) <= startPos
            ==> Walked(items, seconds, startPos) == Walk(Total(items, seconds), [], 0, true)
  {
    if items != [] {
      assert items[|items| - 1] in items;
      WalkBeforeStart(items[..|items| - 1], seconds, startPos);
    }
  }

  /**
  Seeking gives exactly the rest of the channel from the item that plays at startPos on, and as offset the playing time
  of all items before it; so offset <= startPos < offset + the first duration.
  */
  lemma {:induction false} SeekFindsSuffix(items: seq<string>, seconds: map<string, int>, startPos: int)
        returns (j: nat)
    requires Playable(items, seconds) && 0 <= startPos < Total(items, seconds)
    ensures PlaysAt(items, seconds, startPos, j)
    ensures Walked(items, seconds, startPos)
            == Walk(Total(items, seconds), items[j..], Total(items[..j], seconds), true)
  {
    var front, last := items[..|items| - 1], items[|items| - 1];
    assert items == front + [last] && last in items;
    WalkBeforeStart(front, seconds, startPos);
    if startPos < Total(front, seconds) {
      j := SeekFindsSuffix(front, seconds, startPos);
      assert items[..j] == front[..j] && items[j..] == front[j..] + [last];
    } else {
      j := |front|;
      assert items[j..] == [last];
    }
  }

  /** The result is usable if and only if every item has a known duration. */
  lemma {:induction false} WalkIsValidIff(items: seq<string>, seconds: map<string, int>, startPos: int)
    ensures Walked(items, seconds, startPos).valid <==> forall p :: p in items ==> p in seconds && seconds[p] != 0
  {
    if items != [] {
      assert items == items[..|items| - 1] + [items[|items| - 1]];
      WalkIsValidIff(items[..|items| - 1], seconds, startPos);
    }
  }

  /** At most one item plays at a time, so the suffix is determined. */
  lemma OneItemPlays(items: seq<string>, seconds: map<string, int>, time: int, i: nat, j: nat)
    requires PlaysAt(items, seconds, time, i) && PlaysAt(items, seconds, time, j)
    ensures i == j
  {
    assert items[..i + 1][..i] == items[..i] && items[..j + 1][..j] == items[..j];
    if i < j { TotalGrows(items, seconds, i + 1, j); }
    if j < i { TotalGrows(items, seconds, j + 1, i); }
  }

  lemma {:induction false} TotalGrows(items: seq<string>, seconds: map<string, int>, i: nat, j: nat)
    requires Playable(items, seconds) && i <= j <= |items|
    ensures Total(items[..i], seconds) <= Total(items[..j], seconds)
    decreases j - i
  {
    if i < j {
      TotalGrows(items, seconds, i, j - 1);
      assert items[..j][..j - 1] == items[..j - 1];
      assert items[j - 1] in items;
    }
  }
}
