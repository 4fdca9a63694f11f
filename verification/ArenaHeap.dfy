/** The two arena variants as linked objects updated in place, each step tied to its function in ArenaModel. */
module ArenaHeap {
  import opened ArenaModel

  class Arena {
    const base: nat
    var ptr: nat
    var end: nat
    var prev: Arena?

    constructor (base: nat, ptr: nat, end: nat, prev: Arena?)
      ensures this.base == base && this.ptr == ptr && this.end == end && this.prev == prev
    {
      this.base, this.ptr, this.end, this.prev := base, ptr, end, prev;
    }
  }

  /** A new arena in front of another one, at least as large as that one. */
  method MakeArena(rounded: nat, ghost size: nat, at: nat, prev: Arena) returns (arena: Arena)
    requires rounded == AlignedSize(size)
    ensures fresh(arena) && arena.prev == prev
    ensures Seg(arena.base, arena.ptr, arena.end) == NewSeg(Seg(prev.base, prev.ptr, prev.end), size, at)
  {
    var needed, arenaSize := (rounded + HEADER) % SIZE_T, (prev.end - prev.base) % SIZE_T;
    if needed > arenaSize {
      arenaSize := needed;
    }
    arena := new Arena(at, (at + HEADER + rounded) % SIZE_T, at + arenaSize, prev);
  }

  /** The pointer to the newest arena that callers hold; model is the state it stands for. */
  class ArenaHandle {
    var head: Arena
    ghost var chain: seq<Arena>       // oldest first, so head is the last one
    ghost var model: Bump

    ghost predicate Valid()
      reads this, chain
    {
      && chain != [] && head == Last(chain) && |model.segs| == |chain|
      && chain[0].prev == null
      && (forall i {:trigger chain[i].prev} :: 0 < i < |chain| ==> chain[i].prev == chain[i - 1])
      && (forall i, j :: 0 <= i < j < |chain| ==> chain[i] != chain[j])
      && (forall i :: 0 <= i < |chain| ==> model.segs[i] == Seg(chain[i].base, chain[i].ptr, chain[i].end))
    }

    ghost function Repr(): set<Arena>
      reads this
    {
      set a | a in chain
    }

    /** zend_arena_create: malloc answered with address at. */
    constructor Create(size: nat, at: nat)
      requires HEADER <= size && MallocOk([], at, size)
      ensures Valid() && fresh(head) && chain == [head]
      ensures model == Bump([Seg(at, at + HEADER, at + size)], []) && BumpOk(model)
    {
      var a := new Arena(at, at + HEADER, at + size, null);
      head, chain, model := a, [a], Bump([Seg(at, at + HEADER, at + size)], []);
    }

    method Alloc(size: nat, at: nat) returns (p: nat)
      requires Valid()
      modifies this, head
      ensures Valid() && model == BumpAlloc(old(model), size, at)
      ensures Last(model.stack).block == Block(p, size)
      ensures chain == old(chain) || (fresh(head) && chain == old(chain) + [head])
      ensures fresh(Repr() - old(Repr()))
    {
      var arena := head;
      p := arena.ptr;
      var rounded := AlignedSize(size);
      assert Last(model.segs) == Seg(arena.base, arena.ptr, arena.end);
      model := BumpAlloc(model, size, at);
      if rounded <= (arena.end - p) % SIZE_T {
        arena.ptr := p + rounded;
      } else {
        p := at + HEADER;
        head := MakeArena(rounded, size, at, arena);
        chain := chain + [head];
      }
    }

    method Checkpoint() returns (checkpoint: nat)
      requires Valid()
      ensures checkpoint == Last(model.segs).ptr
    {
      checkpoint := head.ptr;
    }

    /** The loop of a release: walk to the arena that holds the checkpoint, freeing the others, newest first. */
    method FindHolder(checkpoint: nat) returns (arena: Arena, freed: seq<Arena>)
      requires Valid() && ReleaseSegs(model.segs, checkpoint) != []
      ensures |freed| < |chain| && arena == chain[|chain| - |freed| - 1]
      ensures forall i :: 0 <= i < |freed| ==> freed[i] == chain[|chain| - 1 - i]
      ensures var kept := model.segs[..|chain| - |freed|];
              ReleaseSegs(model.segs, checkpoint) == Front(kept) + [Last(kept).(ptr := checkpoint)]
    {
      ghost var n, goal := |chain|, ReleaseSegs(model.segs, checkpoint);
      assert model.segs[..n] == model.segs;
      arena := head;
      freed := [];
      while checkpoint > arena.end || checkpoint <= arena.base
        invariant 0 < n <= |chain| && arena == chain[n - 1] && |freed| == |chain| - n
        invariant ReleaseSegs(model.segs[..n], checkpoint) == goal
        invariant forall i :: 0 <= i < |freed| ==> freed[i] == chain[|chain| - 1 - i]
        decreases n
      {
        assert Front(model.segs[..n]) == model.segs[..n - 1];
        assert n > 1;
        var prev := arena.prev;
        freed := freed + [arena];
        arena := prev;
        n := n - 1;
      }
    }

    /** Frees the arenas that do not hold the checkpoint and rewinds the one that does. */
    method Release(checkpoint: nat, ghost depth: nat) returns (freed: seq<Arena>)
      requires Valid() && ReleaseSegs(model.segs, checkpoint) != []
      modifies this, Repr()
      ensures Repr() <= old(Repr())
      ensures Valid() && model == BumpRelease(old(model), checkpoint, depth)
      ensures |chain| + |freed| == |old(chain)| && chain == old(chain)[..|chain|]
      ensures forall i :: 0 <= i < |freed| ==> freed[i] == old(chain)[|old(chain)| - 1 - i]
    {
      var arena;
      arena, freed := FindHolder(checkpoint);
      model := BumpRelease(model, checkpoint, depth);
      head, chain := arena, chain[..|chain| - |freed|];
      arena.ptr := checkpoint;
    }

    method Holds(p: nat) returns (r: bool)
      requires Valid()
      ensures r == Contains(model.segs, p)
      ensures r <==> exists i :: 0 <= i < |chain| && chain[i].base < p <= chain[i].ptr
    {
      ghost var n := |chain|;
      var arena: Arena? := head;
      while arena != null
        invariant 0 <= n <= |chain| && (n == 0 ==> arena == null) && (n > 0 ==> arena == chain[n - 1])
        invariant forall i :: n <= i < |chain| ==> !(model.segs[i].base < p <= model.segs[i].ptr)
        decreases n
      {
        assert model.segs[n - 1] == Seg(arena.base, arena.ptr, arena.end);
        if p > arena.base && p <= arena.ptr {
          return true;
        }
        arena := arena.prev;
        n := n - 1;
      }
      return false;
    }
  }

  // ---------------------------------------------------------------- the tracked variant

  class TrackedArena {
    const base: nat
    var used: nat                     // how many slots ptr has passed
    const slots: array<Block>
    var prev: TrackedArena?

    constructor (base: nat, prev: TrackedArena?)
      ensures this.base == base && used == 0 && this.prev == prev
      ensures fresh(slots) && slots.Length == TRACKED_ARENA_SIZE
    {
      this.base, this.used, this.prev := base, 0, prev;
      slots := new Block[TRACKED_ARENA_SIZE](_ => Block(0, 0));
    }
  }

  /** The objects from a down its prev links are the chain c; repr is the memory they own. */
  ghost predicate Shows(a: TrackedArena?, c: Tracked, repr: set<object>)
    reads repr
    decreases c
  {
    match c
    case Nil => a == null
    case Arena(base, slots, prev) =>
      && a != null && a in repr && a.slots in repr
      && a.base == base && a.used <= a.slots.Length == TRACKED_ARENA_SIZE && a.slots[..a.used] == slots
      && Shows(a.prev, prev, repr - {a, a.slots})
  }

  lemma Regroup<T>(a: seq<T>, b: seq<T>, c: seq<T>)
    ensures a + (b + c) == a + b + c
    ensures b == [] ==> a + b == a
  {
  }

  class TrackedHandle {
    var head: TrackedArena
    ghost var model: Tracked
    ghost var repr: set<object>

    ghost predicate Valid()
      reads this, repr
    {
      this !in repr && model.Arena? && Shows(head, model, repr)
    }

    constructor Create(at: nat)
      ensures Valid() && model == Arena(at, [], Nil) && TrackedOk(model) && fresh(repr)
    {
      var a := new TrackedArena(at, null);
      head, model, repr := a, Arena(at, [], Nil), {a, a.slots};
    }

    method Alloc(size: nat, at: nat, blockAt: nat) returns (p: nat)
      requires Valid()
      modifies this, head, head.slots
      ensures Valid() && fresh(repr - old(repr)) && p == blockAt
      ensures model == TrackedAlloc(old(model), size, at, blockAt)
    {
      model := TrackedAlloc(model, size, at, blockAt);
      if head.used == TRACKED_ARENA_SIZE {
        ghost var older := repr;
        head := new TrackedArena(at, head);
        repr := repr + {head, head.slots};
        assert repr - {head, head.slots} == older;
      }
      head.slots[head.used] := Block(blockAt, size);
      head.used := head.used + 1;
      assert head.slots[..head.used] == model.slots;
      p := blockAt;
    }

    method Checkpoint() returns (checkpoint: nat)
      requires Valid()
      ensures checkpoint == SlotPtr(model)
    {
      checkpoint := head.base + HEADER + SLOT_SIZE * head.used;
    }

    /** One turn of the release loop: give back the newest block, or the newest arena if it has none left. */
    method Turn() returns (blocks: seq<Block>, arenas: seq<nat>)
      requires Valid() && Popped(model).Arena?
      modifies this, head
      ensures Valid() && repr <= old(repr) && model == Popped(old(model))
      ensures old(model).slots == [] ==> blocks == [] && arenas == [old(model).base]
      ensures old(model).slots != [] ==> blocks == [Last(old(model).slots)] && arenas == []
    {
      var arena := head;
      model := Popped(model);
      if arena.used == 0 {
        blocks, arenas := [], [arena.base];
        assert Shows(arena.prev, model, repr - {arena, arena.slots});
        head, repr := arena.prev, repr - {arena, arena.slots};
      } else {
        arena.used := arena.used - 1;
        blocks, arenas := [arena.slots[arena.used]], [];
        assert arena.slots[..arena.used] == model.slots;
      }
    }

    /** Frees the blocks and arenas above the checkpoint, in the order the two lists give. */
    method Release(checkpoint: nat) returns (blocks: seq<Block>, arenas: seq<nat>)
      requires Valid() && TrackedRelease(model, checkpoint).chain.Arena?
      modifies this, repr
      ensures Valid() && repr <= old(repr)
      ensures Released(model, blocks, arenas) == TrackedRelease(old(model), checkpoint)
    {
      blocks, arenas := [], [];
      ghost var goal := TrackedRelease(model, checkpoint);
      while head.base + HEADER + SLOT_SIZE * head.used != checkpoint
        invariant Valid() && repr <= old(repr)
        invariant var rest := TrackedRelease(model, checkpoint);
                  goal == Released(rest.chain, blocks + rest.blocks, arenas + rest.arenas)
        decreases Weight(model)
      {
        ghost var rest := TrackedRelease(Popped(model), checkpoint);
        var bs, gs := Turn();
        Regroup(blocks, bs, rest.blocks);
        Regroup(arenas, gs, rest.arenas);
        blocks, arenas := blocks + bs, arenas + gs;
      }
    }
  }

  // ---------------------------------------------------------------- whole programs on the linked objects

  /**
  Run a program on a bump-pointer arena: the objects end in the state of the model's run, which BumpRefines is
  about.
  */
  method Execute(h: ArenaHandle, p: Program)
    requires h.Valid() && LegalBump(h.model, p)
    modifies h, h.Repr()
    ensures h.Valid() && h.model == BumpRun(old(h.model), p) && fresh(h.Repr() - old(h.Repr()))
    decreases p, 0
  {
    match p
    case Done =>
    case Alloc(size, at, _, next) =>
      var _ := h.Alloc(size, at);
      Execute(h, next);
    case Scope(body, next) =>
      ExecuteScope(h, body);
      Execute(h, next);
  }

  /** A checkpoint, a program, and the release. */
  method ExecuteScope(h: ArenaHandle, body: Program)
    requires h.Valid() && LegalBump(h.model, body)
    requires ReleaseSegs(BumpRun(h.model, body).segs, Last(h.model.segs).ptr) != []
    modifies h, h.Repr()
    ensures h.Valid() && fresh(h.Repr() - old(h.Repr()))
    ensures h.model == BumpRelease(BumpRun(old(h.model), body), Last(old(h.model).segs).ptr, |old(h.model).stack|)
    decreases body, 1
  {
    ghost var depth := |h.model.stack|;
    var checkpoint := h.Checkpoint();
    Execute(h, body);
    var _ := h.Release(checkpoint, depth);
  }

  /** Run a program on a tracked arena; TrackedRefines is about the state it ends in. */
  method ExecuteTracked(h: TrackedHandle, p: Program)
    requires h.Valid() && LegalTracked(h.model, p)
    modifies h, h.repr
    ensures h.Valid() && h.model == TrackedRun(old(h.model), p)
    ensures fresh(h.repr - old(h.repr))
    decreases p
  {
    match p
    case Done =>
    case Alloc(size, at, blockAt, next) =>
      var _ := h.Alloc(size, at, blockAt);
      ExecuteTracked(h, next);
    case Scope(body, next) =>
      var checkpoint := h.Checkpoint();
      ExecuteTracked(h, body);
      var _, _ := h.Release(checkpoint);
      ExecuteTracked(h, next);
  }

  /**
  Fresh arenas of both kinds, taken through the same program, hold the same stack of allocations: the abstract
  one.
  */
  method ExecuteBoth(p: Program, size: nat, at: nat, trackedAt: nat) returns (h: ArenaHandle, k: TrackedHandle)
    requires HEADER <= size && MallocOk([], at, size)
    requires LegalBump(Bump([Seg(at, at + HEADER, at + size)], []), p) && LegalTracked(Arena(trackedAt, [], Nil), p)
    ensures h.Valid() && BumpOk(h.model) && Sizes(h.model.stack) == AbstractRun([], p)
    ensures k.Valid() && TrackedOk(k.model) && BlockSizes(Blocks(k.model)) == AbstractRun([], p)
  {
    h := new ArenaHandle.Create(size, at);
    BumpRefines(h.model, p);
    assert Sizes(h.model.stack) == [];
    Execute(h, p);
    k := new TrackedHandle.Create(trackedAt);
    TrackedRefines(k.model, p);
    assert BlockSizes(Blocks(k.model)) == [];
    ExecuteTracked(k, p);
  }
}
