/**
The arena allocator shipped with the interpreter headers, on 64-bit addresses.  Two variants of one interface:
the default one bumps a pointer through a chain of malloc'ed arenas, the tracked one mallocs every block and
remembers it in a slot.  Both are specified against one abstract stack of live allocations.
*/
module ArenaModel {
  const ALIGNMENT := 8
  const SIZE_T := 0x1_0000_0000_0000_0000
  const HEADER := 24                 // three pointers, already a multiple of ALIGNMENT
  const TRACKED_ARENA_SIZE := 1000
  const SLOT_SIZE := 8

  /** Round up to a multiple of the alignment; the addition wraps as size_t does. */
  function AlignedSize(size: nat): nat {
    (size + ALIGNMENT - 1) % SIZE_T / ALIGNMENT * ALIGNMENT
  }

  /** Rounding gives the least multiple that is large enough, if and only if the addition does not wrap. */
  lemma AlignedSizeMeaning(size: nat)
    requires size < SIZE_T
    ensures AlignedSize(size) % ALIGNMENT == 0
    ensures AlignedSize(size) >= size <==> size + ALIGNMENT - 1 < SIZE_T
    ensures size + ALIGNMENT - 1 < SIZE_T ==> AlignedSize(size) < size + ALIGNMENT
  {
  }

  datatype Block = Block(addr: nat, size: nat)

  // ---------------------------------------------------------------- the abstract stack

  // A well-bracketed use of an arena.  Every allocation carries the addresses malloc would answer with:
  // arenaAt for a new arena, blockAt for the block itself (tracked variant only).
  datatype Program = Done
                   | Alloc(size: nat, arenaAt: nat, blockAt: nat, next: Program)
                   | Scope(body: Program, next: Program)  // checkpoint; body; release; next

  /** The sizes of the live allocations, oldest first: a scope gives back exactly what it allocated. */
  function AbstractRun(stack: seq<nat>, p: Program): (r: seq<nat>)
    ensures stack <= r
    decreases p
  {
    match p
    case Done => stack
    case Alloc(size, _, _, next) => AbstractRun(stack + [size], next)
    case Scope(body, next) => AbstractRun(AbstractRun(stack, body)[..|stack|], next)
  }

  // ---------------------------------------------------------------- bump-pointer arenas

  datatype Seg = Seg(base: nat, ptr: nat, end: nat)
  datatype Placed = Placed(arena: nat, block: Block)

  // The chain, oldest arena first, and the live blocks, oldest first.
  datatype Bump = Bump(segs: seq<Seg>, stack: seq<Placed>)

  predicate SegOk(g: Seg) {
    g.base % ALIGNMENT == 0 && g.ptr % ALIGNMENT == 0 && g.base + HEADER <= g.ptr <= g.end < SIZE_T
  }

  predicate Apart(lo1: nat, hi1: nat, lo2: nat, hi2: nat) { hi1 <= lo2 || hi2 <= lo1 }

  predicate Disjoint(segs: seq<Seg>) {
    forall i, j :: 0 <= i < j < |segs| ==> Apart(segs[i].base, segs[i].end, segs[j].base, segs[j].end)
  }

  predicate SegsOk(segs: seq<Seg>) {
    segs != [] && (forall i :: 0 <= i < |segs| ==> SegOk(segs[i])) && Disjoint(segs)
  }

  predicate PlacedOk(segs: seq<Seg>, x: Placed) {
    && x.arena < |segs|
    && x.block.addr % ALIGNMENT == 0
    && segs[x.arena].base + HEADER <= x.block.addr
    && x.block.size + ALIGNMENT - 1 < SIZE_T
    && x.block.addr + AlignedSize(x.block.size) <= segs[x.arena].ptr
  }

  /** x was allocated before y. */
  predicate Before(x: Placed, y: Placed) {
    x.arena < y.arena || (x.arena == y.arena && x.block.addr + AlignedSize(x.block.size) <= y.block.addr)
  }

  predicate BumpOk(b: Bump) {
    && SegsOk(b.segs)
    && (forall i :: 0 <= i < |b.stack| ==> PlacedOk(b.segs, b.stack[i]))
    && (forall i, j :: 0 <= i < j < |b.stack| ==> Before(b.stack[i], b.stack[j]))
  }

  function Last<T>(s: seq<T>): T requires s != [] { s[|s| - 1] }
  function Front<T>(s: seq<T>): seq<T> requires s != [] { s[..|s| - 1] }

  predicate FitsHere(g: Seg, size: nat) { AlignedSize(size) <= (g.end - g.ptr) % SIZE_T }

  /** The size of a new arena; the sum wraps as size_t does. */
  function NewArenaSize(g: Seg, size: nat): nat {
    var needed, usual := (AlignedSize(size) + HEADER) % SIZE_T, (g.end - g.base) % SIZE_T;
    if needed > usual then needed else usual
  }

  function NewSeg(g: Seg, size: nat, at: nat): Seg {
    Seg(at, (at + HEADER + AlignedSize(size)) % SIZE_T, at + NewArenaSize(g, size))
  }

  /** malloc answers with aligned memory that overlaps no arena of the chain. */
  predicate MallocOk(segs: seq<Seg>, at: nat, size: nat) {
    && at % ALIGNMENT == 0 && at + size < SIZE_T
    && (forall i :: 0 <= i < |segs| ==> Apart(segs[i].base, segs[i].end, at, at + size))
  }

  /** What an allocation may rely on: the request is a size_t, and malloc behaves if an arena is needed. */
  predicate BumpAllocOk(segs: seq<Seg>, size: nat, at: nat)
    requires segs != []
  {
    size < SIZE_T && (!FitsHere(Last(segs), size) ==> MallocOk(segs, at, NewArenaSize(Last(segs), size)))
  }

  /** The rounded request and a header still fit in a size_t. */
  predicate Representable(size: nat) { size + ALIGNMENT - 1 + HEADER < SIZE_T }

  function BumpAlloc(b: Bump, size: nat, at: nat): Bump
    requires b.segs != []
  {
    var g := Last(b.segs);
    if FitsHere(g, size) then
      Bump(Front(b.segs) + [g.(ptr := g.ptr + AlignedSize(size))],
           b.stack + [Placed(|b.segs| - 1, Block(g.ptr, size))])
    else
      Bump(b.segs + [NewSeg(g, size, at)],
           b.stack + [Placed(|b.segs|, Block(at + HEADER, size))])
  }

  /** The release loop: arenas that do not hold the checkpoint go, the pointer of the one that does comes back. */
  function ReleaseSegs(segs: seq<Seg>, checkpoint: nat): seq<Seg> {
    if segs == [] then []
    else if checkpoint > Last(segs).end || checkpoint <= Last(segs).base then ReleaseSegs(Front(segs), checkpoint)
    else Front(segs) + [Last(segs).(ptr := checkpoint)]
  }

  /** Release to a checkpoint that was taken when depth blocks were live. */
  function BumpRelease(b: Bump, checkpoint: nat, depth: nat): Bump {
    Bump(ReleaseSegs(b.segs, checkpoint), if depth <= |b.stack| then b.stack[..depth] else b.stack)
  }

  predicate Contains(segs: seq<Seg>, p: nat) {
    exists i :: 0 <= i < |segs| && segs[i].base < p <= segs[i].ptr
  }

  predicate LegalBump(b: Bump, p: Program)
    requires b.segs != []
    decreases p
  {
    match p
    case Done => true
    case Alloc(size, at, _, next) =>
      BumpAllocOk(b.segs, size, at) && Representable(size) && LegalBump(BumpAlloc(b, size, at), next)
    case Scope(body, next) =>
      && LegalBump(b, body)
      && var r := BumpRelease(BumpRun(b, body), Last(b.segs).ptr, |b.stack|);
         r.segs != [] && LegalBump(r, next)
  }

  function BumpRun(b: Bump, p: Program): Bump
    requires b.segs != []
    decreases p
  {
    match p
    case Done => b
    case Alloc(size, at, _, next) => BumpRun(BumpAlloc(b, size, at), next)
    case Scope(body, next) =>
      var r := BumpRelease(BumpRun(b, body), Last(b.segs).ptr, |b.stack|);
      if r.segs == [] then r else BumpRun(r, next)
  }

  // ---------------------------------------------------------------- laws of the bump variant

  lemma FittingBlock(g: Seg, size: nat)
    requires SegOk(g) && size + ALIGNMENT - 1 < SIZE_T
    ensures FitsHere(g, size) <==> g.ptr + AlignedSize(size) <= g.end
    ensures (g.ptr + AlignedSize(size)) % ALIGNMENT == 0
  {
  }

  lemma AllocHere(b: Bump, size: nat, at: nat)
    requires BumpOk(b) && Representable(size) && FitsHere(Last(b.segs), size)
    ensures BumpOk(BumpAlloc(b, size, at))
  {
    assert SegOk(Last(b.segs));
    FittingBlock(Last(b.segs), size);
    var t := BumpAlloc(b, size, at);
    forall i | 0 <= i < |b.stack| ensures PlacedOk(t.segs, t.stack[i]) && Before(t.stack[i], Last(t.stack)) {
      assert PlacedOk(b.segs, b.stack[i]);
    }
  }

  /** A new arena is laid out well if and only if the request and its header do not overflow. */
  lemma NewSegIsOkIff(g: Seg, size: nat, at: nat)
    requires SegOk(g) && size + ALIGNMENT - 1 < SIZE_T && at % ALIGNMENT == 0 && at + NewArenaSize(g, size) < SIZE_T
    ensures SegOk(NewSeg(g, size, at)) <==> Representable(size)
    ensures Representable(size) ==> NewSeg(g, size, at).ptr == at + HEADER + AlignedSize(size)
    ensures (at + HEADER) % ALIGNMENT == 0
  {
    AlignedSizeMeaning(size);
  }

  /** A new arena is at least as large as the one before it and has room for exactly the request behind its header. */
  lemma NewArenaIsLarger(g: Seg, size: nat, at: nat)
    requires SegOk(g) && Representable(size)
    ensures var n := NewSeg(g, size, at);
            && n.base == at && n.end - n.base >= g.end - g.base && n.end - n.base >= HEADER + AlignedSize(size)
            && (n.end - n.base == g.end - g.base || n.end - n.base == HEADER + AlignedSize(size))
  {
    AlignedSizeMeaning(size);
  }

  lemma AllocInNewArena(b: Bump, size: nat, at: nat)
    requires BumpOk(b) && BumpAllocOk(b.segs, size, at) && Representable(size) && !FitsHere(Last(b.segs), size)
    ensures BumpOk(BumpAlloc(b, size, at))
  {
    var t := BumpAlloc(b, size, at);
    assert SegOk(Last(b.segs));
    NewSegIsOkIff(Last(b.segs), size, at);
    forall i | 0 <= i < |b.stack| ensures PlacedOk(t.segs, t.stack[i]) && Before(t.stack[i], Last(t.stack)) {
      assert PlacedOk(b.segs, b.stack[i]);
    }
  }

  /** A request too large to be rounded up is answered with a block that is not there. */
  lemma OverflowFits(g: Seg, size: nat)
    requires size < SIZE_T <= size + ALIGNMENT - 1
    ensures AlignedSize(size) == 0 && FitsHere(g, size)
  {
  }

  /** A request that fits where it is never overflows, unless rounding wraps. */
  lemma FittingIsRepresentable(g: Seg, size: nat)
    requires SegOk(g) && size + ALIGNMENT - 1 < SIZE_T && FitsHere(g, size)
    ensures Representable(size)
  {
    FittingBlock(g, size);
    AlignedSizeMeaning(size);
  }

  /**
  An allocation keeps arenas and live blocks well placed if and only if the rounded request and a header fit in
  a size_t.
  */
  lemma AllocKeepsBumpIff(b: Bump, size: nat, at: nat)
    requires BumpOk(b) && BumpAllocOk(b.segs, size, at)
    ensures BumpOk(BumpAlloc(b, size, at)) <==> Representable(size)
  {
    var g, t := Last(b.segs), BumpAlloc(b, size, at);
    assert SegOk(g);
    if Representable(size) {
      if FitsHere(g, size) { AllocHere(b, size, at); } else { AllocInNewArena(b, size, at); }
    } else if size + ALIGNMENT - 1 < SIZE_T {
      if FitsHere(g, size) { FittingIsRepresentable(g, size); }
      NewSegIsOkIff(g, size, at);
      assert t.segs[|b.segs|] == NewSeg(g, size, at);
    } else {
      OverflowFits(g, size);
      assert !PlacedOk(t.segs, t.stack[|b.stack|]);
    }
  }

  /** Live blocks are aligned, lie inside their arena and never overlap. */
  lemma LiveBlocksAreSeparate(b: Bump, i: nat, j: nat)
    requires BumpOk(b) && i < j < |b.stack|
    ensures var x, y := b.stack[i].block, b.stack[j].block;
            Apart(x.addr, x.addr + x.size, y.addr, y.addr + y.size)
    ensures var x, g := b.stack[i].block, b.segs[b.stack[i].arena];
            x.addr % ALIGNMENT == 0 && g.base + HEADER <= x.addr && x.addr + x.size <= g.ptr <= g.end
  {
    AlignedSizeMeaning(b.stack[i].block.size);
    AlignedSizeMeaning(b.stack[j].block.size);
    assert PlacedOk(b.segs, b.stack[i]) && PlacedOk(b.segs, b.stack[j]) && Before(b.stack[i], b.stack[j]);
  }

  /** t is b after some more allocations. */
  predicate Extends(t: Bump, b: Bump) {
    && b.segs != [] && |b.segs| <= |t.segs|
    && Front(b.segs) == t.segs[..|b.segs| - 1]
    && t.segs[|b.segs| - 1] == Last(b.segs).(ptr := t.segs[|b.segs| - 1].ptr)
    && b.stack <= t.stack
  }

  /** Releasing any later state to the checkpoint of an earlier one gives the earlier chain, pointer included. */
  lemma {:induction false} ReleaseRestores(segs: seq<Seg>, b: Bump, t: Bump)
    requires SegsOk(b.segs) && SegsOk(t.segs) && Extends(t, b)
    requires |b.segs| <= |segs| <= |t.segs| && segs == t.segs[..|segs|]
    ensures ReleaseSegs(segs, Last(b.segs).ptr) == b.segs
  {
    var cp, k := Last(b.segs).ptr, |b.segs| - 1;
    assert SegOk(t.segs[k]) && SegOk(b.segs[k]);
    if |segs| == |b.segs| {
      assert Front(segs) == Front(b.segs);
    } else {
      // The checkpoint lies in (base, end] of its own arena, so in no other arena, adjacent or not.
      assert Apart(t.segs[k].base, t.segs[k].end, Last(segs).base, Last(segs).end);
      ReleaseRestores(Front(segs), b, t);
    }
  }

  lemma AllocExtends(b: Bump, size: nat, at: nat, t: Bump)
    requires BumpOk(b) && BumpAllocOk(b.segs, size, at) && Representable(size) && Extends(t, BumpAlloc(b, size, at))
    ensures Extends(t, b)
    ensures Sizes(BumpAlloc(b, size, at).stack) == Sizes(b.stack) + [size]
  {
    assert SegOk(Last(b.segs));
    var c := BumpAlloc(b, size, at);
    assert Front(b.segs) == c.segs[..|b.segs| - 1];
    assert c.segs[..|b.segs| - 1] == t.segs[..|b.segs| - 1];
    assert b.stack <= c.stack;
  }

  /** A whole scope, however nested, leaves no trace; every run refines the abstract stack. */
  lemma {:induction false} BumpRefines(b: Bump, p: Program)
    requires BumpOk(b) && LegalBump(b, p)
    ensures BumpOk(BumpRun(b, p)) && Extends(BumpRun(b, p), b)
    ensures Sizes(BumpRun(b, p).stack) == AbstractRun(Sizes(b.stack), p)
    decreases p
  {
    match p
    case Done =>
    case Alloc(size, at, _, next) =>
      var c := BumpAlloc(b, size, at);
      AllocKeepsBumpIff(b, size, at);
      BumpRefines(c, next);
      AllocExtends(b, size, at, BumpRun(c, next));
    case Scope(body, next) =>
      BumpRefines(b, body);
      ScopeReleases(b, BumpRun(b, body));
      assert AbstractRun(Sizes(b.stack), body)[..|b.stack|] == Sizes(b.stack);
      BumpRefines(b, next);
  }

  lemma ScopeReleases(b: Bump, t: Bump)
    requires BumpOk(b) && BumpOk(t) && Extends(t, b)
    ensures BumpRelease(t, Last(b.segs).ptr, |b.stack|) == b
  {
    ReleaseRestores(t.segs, b, t);
  }

  function Sizes(stack: seq<Placed>): seq<nat> {
    seq(|stack|, i requires 0 <= i < |stack| => stack[i].block.size)
  }

  lemma ScopeRestores(b: Bump, body: Program)
    requires BumpOk(b) && LegalBump(b, body)
    ensures BumpRun(b, Scope(body, Done)) == b
  {
    BumpRefines(b, body);
    ScopeReleases(b, BumpRun(b, body));
  }

  /** Membership finds every byte of every live block. */
  lemma ContainsLiveBytes(b: Bump, i: nat, p: nat)
    requires BumpOk(b) && i < |b.stack|
    requires b.stack[i].block.addr <= p < b.stack[i].block.addr + b.stack[i].block.size
    ensures Contains(b.segs, p)
  {
    AlignedSizeMeaning(b.stack[i].block.size);
    assert PlacedOk(b.segs, b.stack[i]);
  }

  // ---------------------------------------------------------------- tracked arenas

  // A chain of arenas of slots, newest first; every used slot remembers one malloc'ed block.
  datatype Tracked = Nil | Arena(base: nat, slots: seq<Block>, prev: Tracked)

  const TRACKED_BYTES := HEADER + SLOT_SIZE * TRACKED_ARENA_SIZE

  /** The address of the next free slot; this is what a checkpoint is. */
  function SlotPtr(c: Tracked): nat
    requires c.Arena?
  {
    c.base + HEADER + SLOT_SIZE * |c.slots|
  }

  predicate ApartFromAll(base: nat, c: Tracked) {
    c.Nil? || (Apart(c.base, c.base + TRACKED_BYTES, base, base + TRACKED_BYTES) && ApartFromAll(base, c.prev))
  }

  predicate TrackedOk(c: Tracked) {
    c.Nil? || (|c.slots| <= TRACKED_ARENA_SIZE && ApartFromAll(c.base, c.prev) && TrackedOk(c.prev))
  }

  predicate TrackedAllocOk(c: Tracked, arenaAt: nat)
    requires c.Arena?
  {
    |c.slots| == TRACKED_ARENA_SIZE ==> ApartFromAll(arenaAt, c)
  }

  function TrackedAlloc(c: Tracked, size: nat, arenaAt: nat, blockAt: nat): Tracked
    requires c.Arena?
  {
    if |c.slots| == TRACKED_ARENA_SIZE then Arena(arenaAt, [Block(blockAt, size)], c)
    else c.(slots := c.slots + [Block(blockAt, size)])
  }

  /** All live blocks, oldest first. */
  function Blocks(c: Tracked): seq<Block> {
    if c.Nil? then [] else Blocks(c.prev) + c.slots
  }

  function Bases(c: Tracked): seq<nat> {
    if c.Nil? then [] else Bases(c.prev) + [c.base]
  }

  function Weight(c: Tracked): nat {
    if c.Nil? then 0 else |c.slots| + 1 + Weight(c.prev)
  }

  /** The chain without its newest block, or without its newest arena if that has no block left. */
  function Popped(c: Tracked): (r: Tracked)
    requires c.Arena?
    ensures Weight(r) < Weight(c)
  {
    if c.slots == [] then c.prev else c.(slots := Front(c.slots))
  }

  // The chain after a release, the blocks it freed and the arenas it freed, each in the order of the calls.
  datatype Released = Released(chain: Tracked, blocks: seq<Block>, arenas: seq<nat>)

  function TrackedRelease(c: Tracked, checkpoint: nat): Released
    decreases Weight(c)
  {
    if c.Nil? || SlotPtr(c) == checkpoint then Released(c, [], [])
    else
      var r := TrackedRelease(Popped(c), checkpoint);
      if c.slots == [] then r.(arenas := [c.base] + r.arenas) else r.(blocks := [Last(c.slots)] + r.blocks)
  }

  predicate LegalTracked(c: Tracked, p: Program)
    requires c.Arena?
    decreases p
  {
    match p
    case Done => true
    case Alloc(size, at, blockAt, next) =>
      TrackedAllocOk(c, at) && LegalTracked(TrackedAlloc(c, size, at, blockAt), next)
    case Scope(body, next) =>
      && LegalTracked(c, body)
      && var r := TrackedRelease(TrackedRun(c, body), SlotPtr(c)).chain;
         r.Arena? && LegalTracked(r, next)
  }

  function TrackedRun(c: Tracked, p: Program): Tracked
    requires c.Arena?
    decreases p
  {
    match p
    case Done => c
    case Alloc(size, at, blockAt, next) => TrackedRun(TrackedAlloc(c, size, at, blockAt), next)
    case Scope(body, next) =>
      var r := TrackedRelease(TrackedRun(c, body), SlotPtr(c)).chain;
      if r.Nil? then r else TrackedRun(r, next)
  }

  // ---------------------------------------------------------------- laws of the tracked variant

  /** Popping c often enough gives b. */
  predicate TrackedExtends(c: Tracked, b: Tracked)
    decreases Weight(c)
  {
    c == b || (c.Arena? && TrackedExtends(Popped(c), b))
  }

  function Reversed<T>(s: seq<T>): (r: seq<T>)
    ensures |r| == |s| && forall i :: 0 <= i < |s| ==> r[i] == s[|s| - 1 - i]
  {
    if s == [] then [] else [Last(s)] + Reversed(Front(s))
  }

  predicate HasBase(c: Tracked, base: nat) {
    c.Arena? && (c.base == base || HasBase(c.prev, base))
  }

  lemma {:induction false} ExtensionShape(c: Tracked, b: Tracked)
    requires TrackedExtends(c, b) && b.Arena?
    ensures c.Arena?
    ensures (b.base == c.base && |b.slots| <= |c.slots| && (|b.slots| == |c.slots| ==> b == c))
            || HasBase(c.prev, b.base)
    decreases Weight(c)
  {
    if c != b {
      ExtensionShape(Popped(c), b);
    }
  }

  lemma {:induction false} ApartFromBase(base: nat, c: Tracked, other: nat)
    requires ApartFromAll(base, c) && HasBase(c, other)
    ensures Apart(other, other + TRACKED_BYTES, base, base + TRACKED_BYTES)
  {
    if c.base != other { ApartFromBase(base, c.prev, other); }
  }

  /** A checkpoint is the next-slot address of no later state, whether or not arenas are address-adjacent. */
  lemma CheckpointIsUnique(c: Tracked, b: Tracked)
    requires TrackedOk(c) && TrackedOk(b) && TrackedExtends(c, b) && b.Arena?
    ensures c.Arena? && (SlotPtr(c) == SlotPtr(b) <==> c == b)
  {
    ExtensionShape(c, b);
    if HasBase(c.prev, b.base) { ApartFromBase(c.base, c.prev, b.base); }
  }

  /** What undoing the steps from b to c must free: the later blocks and arenas, last one first and each once. */
  predicate Undoes(r: Released, c: Tracked, b: Tracked) {
    && r.chain == b
    && Blocks(c) == Blocks(b) + Reversed(r.blocks)
    && Bases(c) == Bases(b) + Reversed(r.arenas)
  }

  lemma ReversedCons<T>(x: T, s: seq<T>)
    ensures Reversed([x] + s) == Reversed(s) + [x]
  {
  }

  /** Release gives back the earlier chain and frees exactly the later blocks, last one first and each once. */
  lemma {:induction false} TrackedReleaseRestores(c: Tracked, b: Tracked)
    requires TrackedOk(c) && TrackedOk(b) && TrackedExtends(c, b) && b.Arena?
    ensures Undoes(TrackedRelease(c, SlotPtr(b)), c, b)
    decreases Weight(c)
  {
    CheckpointIsUnique(c, b);
    if c != b {
      TrackedReleaseRestores(Popped(c), b);
      var r := TrackedRelease(Popped(c), SlotPtr(b));
      if c.slots == [] {
        ReversedCons(c.base, r.arenas);
      } else {
        ReversedCons(Last(c.slots), r.blocks);
        assert c.slots == Front(c.slots) + [Last(c.slots)];
        assert Blocks(c) == Blocks(Popped(c)) + [Last(c.slots)];
      }
    }
  }

  lemma TrackedAllocPushes(c: Tracked, size: nat, at: nat, blockAt: nat)
    requires c.Arena? && TrackedOk(c) && TrackedAllocOk(c, at)
    ensures var t := TrackedAlloc(c, size, at, blockAt);
            && TrackedOk(t) && TrackedExtends(t, c)
            && Blocks(t) == Blocks(c) + [Block(blockAt, size)]
  {
    var t := TrackedAlloc(c, size, at, blockAt);
    if |c.slots| == TRACKED_ARENA_SIZE {
      assert Popped(t) == Arena(at, [], c);
      assert Popped(Popped(t)) == c;
    } else {
      assert Popped(t) == c;
    }
  }

  lemma {:induction false} ExtendsIsTransitive(t: Tracked, c: Tracked, b: Tracked)
    requires TrackedExtends(t, c) && TrackedExtends(c, b)
    ensures TrackedExtends(t, b)
    decreases Weight(t)
  {
    if t != c { ExtendsIsTransitive(Popped(t), c, b); }
  }

  lemma {:induction false} TrackedRefines(c: Tracked, p: Program)
    requires c.Arena? && TrackedOk(c) && LegalTracked(c, p)
    ensures TrackedOk(TrackedRun(c, p)) && TrackedExtends(TrackedRun(c, p), c)
    ensures BlockSizes(Blocks(TrackedRun(c, p))) == AbstractRun(BlockSizes(Blocks(c)), p)
    decreases p
  {
    match p
    case Done =>
    case Alloc(size, at, blockAt, next) =>
      var t := TrackedAlloc(c, size, at, blockAt);
      TrackedAllocPushes(c, size, at, blockAt);
      assert BlockSizes(Blocks(t)) == BlockSizes(Blocks(c)) + [size];
      TrackedRefines(t, next);
      ExtendsIsTransitive(TrackedRun(c, p), t, c);
    case Scope(body, next) =>
      TrackedRefines(c, body);
      TrackedReleaseRestores(TrackedRun(c, body), c);
      assert AbstractRun(BlockSizes(Blocks(c)), body)[..|BlockSizes(Blocks(c))|] == BlockSizes(Blocks(c));
      TrackedRefines(c, next);
  }

  function BlockSizes(bs: seq<Block>): seq<nat> {
    seq(|bs|, i requires 0 <= i < |bs| => bs[i].size)
  }

  /** On every program both variants hold the same stack of allocation sizes. */
  lemma BothVariantsAgree(b: Bump, c: Tracked, p: Program)
    requires BumpOk(b) && LegalBump(b, p) && c.Arena? && TrackedOk(c) && LegalTracked(c, p)
    requires Sizes(b.stack) == BlockSizes(Blocks(c))
    ensures Sizes(BumpRun(b, p).stack) == BlockSizes(Blocks(TrackedRun(c, p)))
  {
    BumpRefines(b, p);
    TrackedRefines(c, p);
  }
}
