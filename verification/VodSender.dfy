/** Sending a film file: clamping the requested byte range, and the throttled read loop. */
module VodSender {
  type Byte = x: int | 0 <= x < 256

  // ---------------------------------------------------------------- byte ranges (section 2.1 of RFC 7233)

  datatype RangeHeader = NoRange | FirstLast(first: nat, last: nat) | FirstOnly(first: nat) | SeveralRanges

  datatype Answer = Send(start: int, end: int) | NotSatisfiable

  function Clamped(size: nat, h: RangeHeader): Answer {
    var end := size - 1;
    match h
    case NoRange => Send(0, end)
    case SeveralRanges => NotSatisfiable
    case _ =>
      var rangeEnd := if h.FirstLast? then h.last else size;
      var clampedEnd := if end < rangeEnd then end else rangeEnd;
      if clampedEnd < h.first || size - 1 < h.first || size <= clampedEnd then NotSatisfiable
      else Send(h.first, clampedEnd)
  }

  /**
  A range is refused exactly if it is empty or begins beyond the file; otherwise it is cut at the end of the
  file.
  */
  lemma ClampedMeaning(size: nat, h: RangeHeader)
    requires h.FirstLast? || h.FirstOnly?
    ensures Clamped(size, h).NotSatisfiable? <==> h.first >= size || (h.FirstLast? && h.last < h.first)
    ensures var a := Clamped(size, h);
            a.Send? ==> 0 <= a.start == h.first <= a.end < size
                        && (a.end == size - 1 || (h.FirstLast? && a.end == h.last < size))
  {
  }

  // ---------------------------------------------------------------- rounding

  /** How many pieces of b bytes cover a bytes. */
  function CeilDiv(a: nat, b: nat): nat
    requires b > 0
    decreases a
  {
    if a == 0 then 0 else 1 + CeilDiv(if a <= b then 0 else a - b, b)
  }

  lemma {:induction false} CeilDivMeans(a: nat, b: nat, x: nat)
    requires b > 0
    ensures a <= x * b <==> CeilDiv(a, b) <= x
    decreases a
  {
    if a > 0 && x > 0 {
      assert x * b == (x - 1) * b + b;
      CeilDivMeans(if a <= b then 0 else a - b, b, x - 1);
    }
  }

  /** The least integer that is no smaller. */
  function Ceil(x: real): int { -((-x).Floor) }

  /** How many buffers make up one second's worth of bytes. */
  function BuffersPerSecond(rate: real, buffer: nat): (c: nat)
    requires rate > 0.0 && buffer > 0
    ensures c >= 1 && (c - 1) as real * buffer as real < rate <= c as real * buffer as real
  {
    CeilCovers(rate, buffer as real);
    Ceil(rate / buffer as real)
  }

  lemma CeilCovers(x: real, y: real)
    requires x > 0.0 && y > 0.0
    ensures Ceil(x / y) >= 1 && (Ceil(x / y) - 1) as real * y < x <= Ceil(x / y) as real * y
  {
    var q := x / y;
    assert q * y == x;
    assert q > 0.0;
    Scaled((Ceil(q) - 1) as real, q, y);
    if q < Ceil(q) as real { Scaled(q, Ceil(q) as real, y); }
  }

  lemma Scaled(a: real, b: real, y: real)
    requires a < b && y > 0.0
    ensures a * y < b * y
  {
    assert (b - a) * y > 0.0;
  }

  /** From where on the limit applies: a share of the length, or never within it for restreamers. */
  function LimitAt(length: nat, percent: real, restreamer: bool): (n: nat)
    ensures restreamer || percent <= 0.0 ==> n == length
    ensures !restreamer && 0.0 < percent ==> n as real <= length as real * (percent / 100.0) < n as real + 1.0
  {
    if 0.0 < percent && !restreamer then
      ShareIsPositive(length as real, percent / 100.0);
      (length as real * (percent / 100.0)).Floor
    else length
  }

  lemma ShareIsPositive(x: real, y: real)
    requires x >= 0.0 && y > 0.0
    ensures x * y >= 0.0
  {
  }

  // ---------------------------------------------------------------- the loop

  /** The read at which the limit starts to apply, and the read of the first sleep. */
  function FirstLimited(limitAt: nat, buffer: nat): nat
    requires buffer > 0
  {
    CeilDiv(limitAt, buffer) + 1
  }

  function FirstSleep(limitAt: nat, buffer: nat, perSecond: nat): nat
    requires buffer > 0
  {
    var j := FirstLimited(limitAt, buffer);
    if j < perSecond then perSecond else j
  }

  /** The limit applies from the least read n whose predecessors have passed the limit, and no sleep is due earlier. */
  lemma FirstSleepIs(limitAt: nat, buffer: nat, perSecond: nat)
    requires buffer > 0
    ensures var n := FirstLimited(limitAt, buffer);
            n >= 1 && limitAt <= (n - 1) * buffer && (n >= 2 ==> (n - 2) * buffer < limitAt)
    ensures var m, n := FirstSleep(limitAt, buffer, perSecond), FirstLimited(limitAt, buffer);
            m >= perSecond && m >= n && (m == perSecond || m == n)
  {
    var n := FirstLimited(limitAt, buffer);
    CeilDivMeans(limitAt, buffer, n - 1);
    if n >= 2 { CeilDivMeans(limitAt, buffer, n - 2); }
  }

  /** k times c. */
  function Times(c: nat, k: nat): nat { if k == 0 then 0 else c + Times(c, k - 1) }

  lemma {:induction false} TimesIsProduct(c: nat, k: nat)
    ensures Times(c, k) == c * k
  {
    if k > 0 {
      TimesIsProduct(c, k - 1);
      assert c * k == c * (k - 1) + c;
    }
  }

  /** After n reads there have been k sleeps: none before the first one is due, and then one every perSecond reads. */
  predicate SleptFor(n: nat, k: nat, first: nat, perSecond: nat) {
    if n < first then k == 0 else k > 0 && first + Times(perSecond, k - 1) <= n < first + Times(perSecond, k)
  }

  /** How far the file pointer is after n reads: every read takes a whole buffer or what the file still has. */
  function Position(start: nat, size: nat, buffer: nat, n: nat): (p: nat)
    requires start <= size
    ensures start <= p <= size
  {
    if n == 0 then start
    else
      var p := Position(start, size, buffer, n - 1);
      if p + buffer <= size then p + buffer else size
  }

  // The counters of the loop.
  datatype Throttle = Throttle(i: nat, o: nat, applyLimit: bool)

  /** What the counters mean after n reads and k sleeps; perSecond is 0 if there is no rate. */
  predicate Counted(t: Throttle, n: nat, k: nat, limitAt: nat, buffer: nat, perSecond: nat)
    requires buffer > 0
  {
    var first := FirstSleep(limitAt, buffer, perSecond);
    && (t.applyLimit <==> n >= FirstLimited(limitAt, buffer))
    && (!t.applyLimit ==> t.o == n)
    && if perSecond == 0 then k == 0
       else if n < first then k == 0 && t.i == n
       else k > 0 && t.i < perSecond && n == first + Times(perSecond, k - 1) + t.i
  }

  /** The bookkeeping after one read: the limit may start to apply, and a full second's worth is followed by a sleep. */
  method AfterRead(t: Throttle, limitAt: nat, buffer: nat, perSecond: nat, ghost n: nat, ghost k: nat)
      returns (u: Throttle, slept: bool)
    requires buffer > 0 && Counted(t, n, k, limitAt, buffer, perSecond)
    ensures Counted(u, n + 1, if slept then k + 1 else k, limitAt, buffer, perSecond)
  {
    var i, o, applyLimit := t.i + 1, t.o, t.applyLimit;
    CeilDivMeans(limitAt, buffer, o);
    if !applyLimit && limitAt <= o * buffer {
      applyLimit := true;
    } else {
      o := o + 1;
    }
    slept := false;
    if perSecond > 0 && applyLimit && perSecond <= i {
      slept := true;
      i := 0;
    }
    u := Throttle(i, o, applyLimit);
  }

  /** One read, which moves the file pointer; turns reads have been made before it. */
  method ReadNext(file: seq<Byte>, position: nat, buffer: nat, ghost start: nat, ghost turns: nat)
      returns (chunk: seq<Byte>, next: nat)
    requires start <= |file| && position == Position(start, |file|, buffer, turns)
    ensures position <= next == Position(start, |file|, buffer, turns + 1) && chunk == file[position..next]
    ensures position < |file| && buffer > 0 ==> position < next
  {
    next := if position + buffer <= |file| then position + buffer else |file|;
    chunk := file[position..next];
  }

  /**
  Send the bytes start..end in buffers of the given size, with a sleep for every perSecond buffers once the limit
  applies; with perSecond 0 nothing is ever throttled.  The sender gives up after the n-th read if by then the
  connection has been closed elsewhere.
  */
  method SendBody(file: seq<Byte>, start: nat, end: int, buffer: nat, perSecond: nat, limitAt: nat,
                  closedAfter: nat -> bool)
      returns (sent: seq<Byte>, turns: nat, sleeps: nat, gaveUp: bool)
    requires buffer > 0 && start <= |file| && -1 <= end < |file|
    ensures sent == file[start..Position(start, |file|, buffer, turns)]
    ensures !gaveUp ==> Position(start, |file|, buffer, turns) > end && forall i :: 0 < i <= turns ==> !closedAfter(i)
    ensures gaveUp ==> turns > 0 && closedAfter(turns)
    ensures turns > 0 ==> Position(start, |file|, buffer, turns - 1) <= end
    ensures if perSecond == 0 then sleeps == 0
               else SleptFor(turns, sleeps, FirstSleep(limitAt, buffer, perSecond), perSecond)
  {
    sent, turns, sleeps, gaveUp := [], 0, 0, false;
    var position, t := start, Throttle(0, 0, false);
    while position <= end
      invariant position == Position(start, |file|, buffer, turns) && sent == file[start..position]
      invariant turns > 0 ==> Position(start, |file|, buffer, turns - 1) <= end
      invariant forall j :: 0 < j <= turns ==> !closedAfter(j)
      invariant Counted(t, turns, sleeps, limitAt, buffer, perSecond)
      decreases |file| - position
    {
      var slept, chunk;
      t, slept := AfterRead(t, limitAt, buffer, perSecond, turns, sleeps);
      chunk, position := ReadNext(file, position, buffer, start, turns);
      sent := sent + chunk;
      turns := turns + 1;
      sleeps := if slept then sleeps + 1 else sleeps;
      if closedAfter(turns) {
        gaveUp := true;
        break;
      }
    }
    CountedSleeps(t, turns, sleeps, limitAt, buffer, perSecond);
  }

  /** The rate in buffers per second; without a bitrate there is none. */
  function PerSecond(rate: real, buffer: nat): nat
    requires buffer > 0
  {
    if rate > 0.0 then BuffersPerSecond(rate, buffer) else 0
  }

  lemma CountedSleeps(t: Throttle, n: nat, k: nat, limitAt: nat, buffer: nat, perSecond: nat)
    requires buffer > 0 && Counted(t, n, k, limitAt, buffer, perSecond)
    ensures if perSecond == 0 then k == 0 else SleptFor(n, k, FirstSleep(limitAt, buffer, perSecond), perSecond)
  {
  }

  // ---------------------------------------------------------------- what the client gets, and how fast

  /** The file pointer moves by whole buffers until it reaches the end of the file. */
  lemma {:induction false} PositionIs(start: nat, size: nat, buffer: nat, n: nat)
    requires start <= size
    ensures Position(start, size, buffer, n)
            == if start + Times(buffer, n) <= size then start + Times(buffer, n) else size
  {
    if n > 0 { PositionIs(start, size, buffer, n - 1); }
  }

  /** How many bytes go out for a range of this length: whole buffers, as far as the file reaches. */
  function BytesSent(size: nat, start: nat, length: nat, buffer: nat): nat
    requires start <= size && buffer > 0
  {
    var whole := Times(buffer, CeilDiv(length, buffer));
    if whole <= size - start then whole else size - start
  }

  lemma CeilDivTimes(a: nat, b: nat, x: nat)
    requires b > 0
    ensures a <= Times(b, x) <==> CeilDiv(a, b) <= x
  {
    TimesIsProduct(b, x);
    CeilDivMeans(a, b, x);
    assert x * b == b * x;
  }

  /** The range is passed after exactly as many reads as it has buffers. */
  lemma ReadsNeeded(start: nat, size: nat, end: nat, buffer: nat, turns: nat)
    requires buffer > 0 && start <= end < size
    requires Position(start, size, buffer, turns) > end
    requires turns > 0 ==> Position(start, size, buffer, turns - 1) <= end
    ensures turns == CeilDiv(end - start + 1, buffer)
  {
    PositionIs(start, size, buffer, turns);
    CeilDivTimes(end - start + 1, buffer, turns);
    if turns > 0 {
      PositionIs(start, size, buffer, turns - 1);
      CeilDivTimes(end - start + 1, buffer, turns - 1);
    }
  }

  /**
  A completed transfer takes exactly as many reads as the range has buffers, begins with exactly the requested bytes and
  runs over by less than one buffer.
  */
  lemma CompletedTransfer(file: seq<Byte>, start: nat, end: nat, buffer: nat, turns: nat, sent: seq<Byte>)
    requires buffer > 0 && start <= end < |file|
    requires sent == file[start..Position(start, |file|, buffer, turns)]
    requires Position(start, |file|, buffer, turns) > end
    requires turns > 0 ==> Position(start, |file|, buffer, turns - 1) <= end
    ensures turns == CeilDiv(end - start + 1, buffer) && |sent| == BytesSent(|file|, start, end - start + 1, buffer)
    ensures end - start + 1 <= |sent| < end - start + 1 + buffer
    ensures sent[..end - start + 1] == file[start..end + 1]
  {
    ReadsNeeded(start, |file|, end, buffer, turns);
    PositionIs(start, |file|, buffer, turns);
  }

  /** The throttle: after n reads and k sleeps n < first + perSecond * k, and k is the least such number. */
  lemma ThrottleBound(n: nat, k: nat, first: nat, perSecond: nat)
    requires perSecond > 0 && SleptFor(n, k, first, perSecond)
    ensures n < first + perSecond * k
    ensures k > 0 ==> first + perSecond * (k - 1) <= n
  {
    TimesIsProduct(perSecond, k);
    if k > 0 { TimesIsProduct(perSecond, k - 1); }
  }

  /** What was sent begins with the bytes start..end, and goes on to the end of the last buffer or of the file. */
  predicate Delivered(file: seq<Byte>, start: nat, end: int, buffer: nat, sent: seq<Byte>)
    requires buffer > 0
  {
    && start <= end + 1 <= |file| && end - start + 1 <= |sent| < end - start + 1 + buffer
    && sent[..end - start + 1] == file[start..end + 1]
    && |sent| == BytesSent(|file|, start, end - start + 1, buffer)
  }

  /** A whole request: the range, the limit and the transfer together. */
  method SendFilm(file: seq<Byte>, h: RangeHeader, buffer: nat, rate: real, percent: real, restreamer: bool,
                  closedAfter: nat -> bool)
      returns (answer: Answer, sent: seq<Byte>, turns: nat, sleeps: nat, gaveUp: bool)
    requires buffer > 0
    ensures answer == Clamped(|file|, h)
    ensures h.NoRange? ==> answer == Send(0, |file| - 1)
    ensures h.SeveralRanges? ==> answer == NotSatisfiable
    ensures answer.NotSatisfiable? ==> sent == [] && turns == 0 && sleeps == 0 && !gaveUp
    ensures h.NoRange? && !gaveUp ==> sent == file
    ensures answer.Send? && !gaveUp ==>
              answer.start >= 0 && answer.end >= answer.start - 1
              && Delivered(file, answer.start, answer.end, buffer, sent)
    ensures answer.Send? && rate > 0.0 ==>
              var length := answer.end - answer.start + 1; var perSecond := PerSecond(rate, buffer);
              length >= 0 && turns
                < FirstSleep(LimitAt(length, percent, restreamer), buffer, perSecond) + perSecond * sleeps
    ensures rate <= 0.0 ==> sleeps == 0
  {
    answer, sent, turns, sleeps, gaveUp := Clamped(|file|, h), [], 0, 0, false;
    if h.FirstLast? || h.FirstOnly? {
      ClampedMeaning(|file|, h);
    }
    if answer.Send? {
      var start, end := answer.start, answer.end;
      var limitAt, perSecond := LimitAt(end - start + 1, percent, restreamer), PerSecond(rate, buffer);
      sent, turns, sleeps, gaveUp := SendBody(file, start, end, buffer, perSecond, limitAt, closedAfter);
      if !gaveUp && start <= end {
        CompletedTransfer(file, start, end, buffer, turns, sent);
      }
      if perSecond > 0 {
        ThrottleBound(turns, sleeps, FirstSleep(limitAt, buffer, perSecond), perSecond);
      }
    }
  }

  /** The number of sleeps is determined by the number of reads. */
  lemma SleepsAreDetermined(n: nat, k: nat, l: nat, first: nat, perSecond: nat)
    requires perSecond > 0 && SleptFor(n, k, first, perSecond) && SleptFor(n, l, first, perSecond)
    ensures k == l
  {
    if n >= first {
      if k < l { Monotone(perSecond, k, l - 1); }
      if l < k { Monotone(perSecond, l, k - 1); }
    }
  }

  lemma {:induction false} Monotone(c: nat, x: nat, y: nat)
    requires x <= y
    ensures Times(c, x) <= Times(c, y)
  {
    if x < y { Monotone(c, x, y - 1); }
  }
}
