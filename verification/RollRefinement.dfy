/** A buffer on the heap moves as one of the buffers of `RollPool` does: each primitive that
    its operations are made of is one action there, on the same pool and the same bytes,
    whatever other buffers and views there are. */
module RollRefinement {
  import opened Common
  import Pool = BufPool
  import opened RollBuffer
  import opened RollPool

  function PlaceOf(index: Option<nat>, box: nat): Place {
    if index.Some? then InPool(index.value) else InBox(box)
  }

  /** A view on the heap is on this storage. */
  predicate IsOn(roll: Roll, place: Place) {
    if place.InPool? then roll.index == Some(place.index) else roll.index.None?
  }

  ghost predicate SamePool(pool: Pool.PrivatePool, s: System)
    reads pool, pool.memory
  {
    && pool.Valid() && StorageShaped(s) && s.counters == pool.State() && |s.memory| == |pool.blocks|
    && forall i :: 0 <= i < |pool.blocks| ==> s.memory[i] == pool.blocks[i][..]
  }

  /** The buffer is the writer `h` of the system; its storage, if a box, has this name there. */
  ghost predicate Stands(b: RollMut, s: System, h: nat, box: nat)
    reads b, b.pool, b.pool.memory, b.storage
  {
    && b.Sound() && SamePool(b.pool, s)
    && h in s.handles && s.handles[h] == Writer(Window(PlaceOf(b.index, box), b.off, b.len))
    && (b.index.None? ==> box in s.boxes && s.boxes[box] == b.storage[..])
  }

  /** So its filled part is what the system shows for it. */
  lemma SameContents(b: RollMut, s: System, h: nat, box: nat)
    requires Stands(b, s, h, box)
    ensures var w := s.handles[h].window;
            IsWriter(s, h) && Countable(s, w.place) && s.Block(w.place) == b.storage[..] && s.Shows(w) == b.Contents()
  {
    var w := s.handles[h].window;
    assert s.Block(w.place) == b.storage[..];
    assert b.storage[..][w.off..w.End()] == b.storage[w.off..w.End()];
  }

  // ---- Each primitive is an action ----

  method RefineAlloc(pool: Pool.PrivatePool, ghost s: System, ghost h: nat) returns (b: RollMut)
    requires SamePool(pool, s) && pool.free != [] && h !in s.handles
    modifies pool
    ensures Enabled(s, Alloc(h)) && Stands(b, Step(s, Alloc(h)), h, 0) && b.Valid() && b.pool == pool
  {
    b := new RollMut.Alloc(pool);
  }

  method RefineAppend(b: RollMut, bytes: Bytes, ghost s: System, ghost h: nat, ghost box: nat)
    requires b.Valid() && |bytes| <= b.Cap() && Stands(b, s, h, box)
    modifies b`len, b.storage
    ensures Enabled(s, Append(h, bytes)) && Stands(b, Step(s, Append(h, bytes)), h, box) && b.Valid()
  {
    SameContents(b, s, h, box);
    b.Append(bytes);
  }

  method RefineScribble(b: RollMut, bytes: Bytes, ghost s: System, ghost h: nat, ghost box: nat)
    requires b.Valid() && |bytes| <= b.Cap() && Stands(b, s, h, box)
    modifies b.storage
    ensures Enabled(s, Scribble(h, bytes)) && Stands(b, Step(s, Scribble(h, bytes)), h, box) && b.Valid()
  {
    SameContents(b, s, h, box);
    b.WriteAt(b.off + b.len, bytes);
  }

  method RefineGive(b: RollMut, n: nat, ghost s: System, ghost h: nat, ghost box: nat, ghost v: nat) returns (roll: Roll)
    requires b.Valid() && n <= b.len && Stands(b, s, h, box) && v !in s.handles
    modifies b`views
    ensures Enabled(s, HandOut(h, n, v)) && b.Valid()
    ensures var t := Step(s, HandOut(h, n, v));
            Stands(b, t, h, box) && t.handles[v] == Reader(Window(PlaceOf(roll.index, box), roll.off, roll.len))
  {
    SameContents(b, s, h, box);
    roll := b.Give(n);
  }

  method RefineSkip(b: RollMut, n: nat, ghost s: System, ghost h: nat, ghost box: nat)
    requires b.Valid() && n <= b.len && Stands(b, s, h, box)
    modifies b`off, b`len
    ensures Enabled(s, Skip(h, n)) && Stands(b, Step(s, Skip(h, n)), h, box) && b.Valid()
  {
    SameContents(b, s, h, box);
    b.Skip(n);
  }

  method RefineToBox(b: RollMut, size: nat, ghost s: System, ghost h: nat, ghost box: nat, ghost next: nat)
    requires b.Valid() && b.len <= size && Pool.BUF_SIZE <= size && Stands(b, s, h, box) && next !in s.boxes
    modifies b, b.pool
    ensures Enabled(s, ToBox(h, size, next)) && Stands(b, Step(s, ToBox(h, size, next)), h, next) && b.Valid()
  {
    SameContents(b, s, h, box);
    b.MoveToBox(size);
  }

  method RefineToPool(b: RollMut, ghost s: System, ghost h: nat, ghost box: nat)
    requires b.Valid() && b.len <= Pool.BUF_SIZE && b.pool.free != [] && Stands(b, s, h, box)
    modifies b, b.pool, b.NextBlock()
    ensures Enabled(s, ToPool(h)) && Stands(b, Step(s, ToPool(h)), h, box) && b.Valid()
  {
    SameContents(b, s, h, box);
    b.MoveToPool();
  }

  method RefineClone(b: RollMut, roll: Roll, ghost s: System, ghost h: nat, ghost box: nat, ghost v: nat, ghost more: nat)
    requires b.Valid() && Stands(b, s, h, box) && IsReader(s, v) && Countable(s, s.handles[v].window.place) && more !in s.handles
    requires IsOn(roll, s.handles[v].window.place)
    modifies b.pool
    ensures Enabled(s, Clone(v, more)) && Stands(b, Step(s, Clone(v, more)), h, box) && b.Valid()
  {
    b.CloneView(roll);
  }

  method RefineDrop(b: RollMut, roll: Roll, ghost s: System, ghost h: nat, ghost box: nat, ghost v: nat)
    requires b.Valid() && Stands(b, s, h, box) && IsReader(s, v) && Countable(s, s.handles[v].window.place)
    requires IsOn(roll, s.handles[v].window.place)
    modifies b.pool
    ensures Enabled(s, Drop(v)) && Stands(b, Step(s, Drop(v)), h, box) && b.Valid()
  {
    b.DropView(roll);
  }
}
