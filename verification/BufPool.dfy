/** The buffer pool: reference-counted blocks, handed out as handles that are
    either writable and alone on their range, or shared and read-only. */
module BufPool {
  import opened Common

  const BUF_SIZE := 4096
  const MAX_COUNT := 32767

  // ---- The counters ----

  /** `Inner`: the free list and the reference counts. */
  datatype Counters = Counters(free: seq<nat>, counts: seq<int>)

  predicate InRange(c: Counters, index: nat) {
    index < |c.counts|
  }

  /** `dec`: a block whose count reaches zero goes to the end of the free list. */
  function Dec(c: Counters, index: nat): Counters
    requires InRange(c, index)
  {
    var count := c.counts[index] - 1;
    Counters(if count == 0 then c.free + [index] else c.free, c.counts[index := count])
  }

  function Inc(c: Counters, index: nat): Counters
    requires InRange(c, index)
  {
    c.(counts := c.counts[index := c.counts[index] + 1])
  }

  /** `alloc`: the first free block, counted once. */
  function Allocated(c: Counters): Counters
    requires c.free != [] && InRange(c, c.free[0])
  {
    Inc(c.(free := c.free[1..]), c.free[0])
  }

  /** The free list holds exactly the blocks nobody counts, each once. */
  ghost predicate FreeIsExact(c: Counters) {
    && (forall i :: 0 <= i < |c.free| ==> InRange(c, c.free[i]))
    && (forall b :: 0 <= b < |c.counts| ==> (b in c.free <==> c.counts[b] == 0))
    && (forall i, j :: 0 <= i < j < |c.free| ==> c.free[i] != c.free[j])
  }

  function FreshCounters(numBufs: nat): Counters {
    Counters(seq(numBufs, i requires 0 <= i < numBufs => i), seq(numBufs, i => 0))
  }

  lemma FreshCountersExact(numBufs: nat)
    ensures FreeIsExact(FreshCounters(numBufs))
  {
    var c := FreshCounters(numBufs);
    forall b | 0 <= b < numBufs
      ensures b in c.free
    {
      assert c.free[b] == b;
    }
  }

  /** The thread-local pool as it runs: its memory cut into blocks, the free list and the
      counts. */
  class PrivatePool {
    const blocks: seq<array<Byte>>
    /** The blocks as a set, for frames. */
    ghost const memory: set<array<Byte>>
    var free: seq<nat>
    var refCounts: seq<int>

    ghost function State(): Counters
      reads this
    {
      Counters(free, refCounts)
    }

    ghost predicate Valid()
      reads this
    {
      && |refCounts| == |blocks| && (forall i :: 0 <= i < |free| ==> free[i] < |blocks|)
      && (forall i :: 0 <= i < |blocks| ==> blocks[i].Length == BUF_SIZE && blocks[i] in memory)
      && (forall b :: b in memory ==> b in blocks)
      && (forall i, j :: 0 <= i < j < |blocks| ==> blocks[i] != blocks[j])
    }

    constructor (numBufs: nat)
      ensures Valid() && |blocks| == numBufs && State() == FreshCounters(numBufs) && FreeIsExact(State())
      ensures forall i :: 0 <= i < numBufs ==> fresh(blocks[i])
    {
      var made: seq<array<Byte>> := [];
      while |made| < numBufs
        invariant |made| <= numBufs
        invariant forall i :: 0 <= i < |made| ==> fresh(made[i]) && made[i].Length == BUF_SIZE
        invariant forall i, j :: 0 <= i < j < |made| ==> made[i] != made[j]
      {
        var block := new Byte[BUF_SIZE](i => 0);
        made := made + [block];
      }
      blocks := made;
      memory := set b | b in made;
      free := seq(numBufs, i requires 0 <= i < numBufs => i);
      refCounts := seq(numBufs, i => 0);
      new;
      FreshCountersExact(numBufs);
    }

    method Alloc() returns (index: Option<nat>)
      requires Valid()
      modifies this
      ensures Valid()
      ensures old(free) == [] ==> index.None? && State() == old(State())
      ensures old(free) != [] ==>
        (index == Some(old(free)[0]) && State() == Allocated(old(State())))
    {
      if free == [] {
        return None;
      }
      var first := free[0];
      free := free[1..];
      refCounts := refCounts[first := refCounts[first] + 1];
      index := Some(first);
    }

    method IncRef(index: nat)
      requires Valid() && index < |blocks|
      modifies this
      ensures Valid() && State() == Inc(old(State()), index)
    {
      refCounts := refCounts[index := refCounts[index] + 1];
    }

    method DecRef(index: nat)
      requires Valid() && index < |blocks|
      modifies this
      ensures Valid() && State() == Dec(old(State()), index)
    {
      refCounts := refCounts[index := refCounts[index] - 1];
      if refCounts[index] == 0 {
        free := free + [index];
      }
    }
  }

  // ---- Handles ----

  /** A `BufMut` (writable) or a `Buf`. */
  datatype Handle = Handle(writable: bool, index: nat, off: nat, len: nat) {
    predicate Overlaps(other: Handle) {
      index == other.index && off < other.off + other.len && other.off < off + len
    }
  }

  /** Counters, blocks, the live handles by name, and how many times
      `freeze_slice` was used on each block. */
  datatype Pool = Pool(counters: Counters, memory: seq<Bytes>, handles: map<nat, Handle>, freezes: seq<nat>)

  datatype Op =
    | Alloc(new1: nat)
    | Freeze(id: nat)
    | FreezeSlice(id: nat, from: nat, to: nat, new1: nat)
    | SplitAt(id: nat, at: nat, new1: nat)
    | Skip(id: nat, n: nat)
    | Slice(id: nat, from: nat, to: nat)
    | Clone(id: nat, new1: nat)
    | Drop(id: nat)
    | Write(id: nat, at: nat, bytes: Bytes)

  predicate Live(p: Pool, id: nat) {
    id in p.handles && InRange(p.counters, p.handles[id].index) && p.handles[id].index < |p.freezes|
  }

  predicate CanInc(p: Pool, id: nat)
    requires Live(p, id)
  {
    p.counters.counts[p.handles[id].index] < MAX_COUNT
  }

  /** What the types and the assertions of the source ask for: the handle is of
      the right kind, the range is within it, the count fits an i16, and a new
      handle has a new name. */
  predicate Enabled(p: Pool, op: Op) {
    match op
    case Alloc(new1) => new1 !in p.handles && p.counters.free != [] && InRange(p.counters, p.counters.free[0])
    case Freeze(id) => Live(p, id) && p.handles[id].writable
    case FreezeSlice(id, from, to, new1) =>
      Live(p, id) && p.handles[id].writable && from <= to <= p.handles[id].len && new1 !in p.handles
    case SplitAt(id, at, new1) => Live(p, id) && at <= p.handles[id].len && CanInc(p, id) && new1 !in p.handles
    case Skip(id, n) => Live(p, id) && p.handles[id].writable && n <= p.handles[id].len
    case Slice(id, from, to) => Live(p, id) && !p.handles[id].writable && from <= to <= p.handles[id].len
    case Clone(id, new1) => Live(p, id) && !p.handles[id].writable && CanInc(p, id) && new1 !in p.handles
    case Drop(id) => Live(p, id)
    case Write(id, at, bytes) =>
      Live(p, id) && p.handles[id].writable && at + |bytes| <= p.handles[id].len && p.handles[id].index < |p.memory|
      && p.handles[id].off + p.handles[id].len <= |p.memory[p.handles[id].index]|
  }

  function Put(block: Bytes, at: nat, bytes: Bytes): Bytes
    requires at + |bytes| <= |block|
  {
    block[..at] + bytes + block[at + |bytes|..]
  }

  function Step(p: Pool, op: Op): Pool
    requires Enabled(p, op)
  {
    match op
    case Alloc(new1) =>
      var index := p.counters.free[0];
      p.(counters := Inc(p.counters.(free := p.counters.free[1..]), index),
         handles := p.handles[new1 := Handle(true, index, 0, BUF_SIZE)])
    case Freeze(id) => p.(handles := p.handles[id := p.handles[id].(writable := false)])
    case FreezeSlice(id, from, to, new1) =>
      var h := p.handles[id];
      p.(handles := p.handles[new1 := Handle(false, h.index, h.off + from, to - from)],
         freezes := p.freezes[h.index := p.freezes[h.index] + 1])
    case SplitAt(id, at, new1) =>
      var h := p.handles[id];
      p.(counters := Inc(p.counters, h.index),
         handles := p.handles[id := h.(len := at)][new1 := h.(off := h.off + at, len := h.len - at)])
    case Skip(id, n) =>
      var h := p.handles[id];
      p.(handles := p.handles[id := h.(off := h.off + n, len := h.len - n)])
    case Slice(id, from, to) =>
      var h := p.handles[id];
      p.(handles := p.handles[id := h.(off := h.off + from, len := to - from)])
    case Clone(id, new1) =>
      var h := p.handles[id];
      p.(counters := Inc(p.counters, h.index), handles := p.handles[new1 := h])
    case Drop(id) =>
      p.(counters := Dec(p.counters, p.handles[id].index), handles := p.handles - {id})
    case Write(id, at, bytes) =>
      var h := p.handles[id];
      p.(memory := p.memory[h.index := Put(p.memory[h.index], h.off + at, bytes)])
  }

  // ---- Counting handles ----

  ghost function HandlesOn(handles: map<nat, Handle>, b: nat): set<nat> {
    set id | id in handles && handles[id].index == b
  }

  lemma AddHandle(handles: map<nat, Handle>, id: nat, h: Handle, b: nat)
    requires id !in handles
    ensures |HandlesOn(handles[id := h], b)| == |HandlesOn(handles, b)| + if h.index == b then 1 else 0
  {
    assert HandlesOn(handles[id := h], b) == HandlesOn(handles, b) + if h.index == b then {id} else {};
  }

  lemma ChangeHandle(handles: map<nat, Handle>, id: nat, h: Handle, b: nat)
    requires id in handles && handles[id].index == h.index
    ensures HandlesOn(handles[id := h], b) == HandlesOn(handles, b)
  {
  }

  lemma RemoveHandle(handles: map<nat, Handle>, id: nat, b: nat)
    requires id in handles
    ensures |HandlesOn(handles - {id}, b)| == |HandlesOn(handles, b)| - if handles[id].index == b then 1 else 0
  {
    assert HandlesOn(handles - {id}, b) == HandlesOn(handles, b) - if handles[id].index == b then {id} else {};
    assert handles[id].index == b ==> id in HandlesOn(handles, b);
  }

  ghost predicate Shaped(p: Pool) {
    && |p.freezes| == |p.counters.counts| == |p.memory|
    && (forall b :: 0 <= b < |p.memory| ==> |p.memory[b]| == BUF_SIZE)
    && (forall id :: id in p.handles ==>
          p.handles[id].index < |p.memory| && p.handles[id].off + p.handles[id].len <= BUF_SIZE)
    && (forall i :: 0 <= i < |p.counters.free| ==> InRange(p.counters, p.counters.free[i]))
  }

  /** Each count is the number of live handles on the block, less the number of
      times `freeze_slice` made one without counting it. */
  ghost predicate Counted(p: Pool)
    requires Shaped(p)
  {
    forall b :: 0 <= b < |p.freezes| ==> p.counters.counts[b] == |HandlesOn(p.handles, b)| - p.freezes[b]
  }

  lemma StepKeepsShape(p: Pool, op: Op)
    requires Shaped(p) && Enabled(p, op)
    ensures Shaped(Step(p, op))
  {
  }

  /** The law of the counts, `freeze_slice` included. */
  lemma CountLaw(p: Pool, op: Op)
    requires Shaped(p) && Counted(p) && Enabled(p, op)
    ensures Shaped(Step(p, op)) && Counted(Step(p, op))
  {
    StepKeepsShape(p, op);
    var q := Step(p, op);
    forall b | 0 <= b < |q.freezes|
      ensures q.counters.counts[b] == |HandlesOn(q.handles, b)| - q.freezes[b]
    {
      CountLawAt(p, op, b);
    }
  }

  lemma CountLawAt(p: Pool, op: Op, b: nat)
    requires Shaped(p) && Counted(p) && Enabled(p, op) && b < |p.freezes|
    ensures var q := Step(p, op);
            b < |q.counters.counts| && b < |q.freezes| && q.counters.counts[b] == |HandlesOn(q.handles, b)| - q.freezes[b]
  {
    match op
    case Alloc(new1) => AddHandle(p.handles, new1, Handle(true, p.counters.free[0], 0, BUF_SIZE), b);
    case Freeze(id) => ChangeHandle(p.handles, id, p.handles[id].(writable := false), b);
    case FreezeSlice(id, from, to, new1) =>
      var h := p.handles[id];
      AddHandle(p.handles, new1, Handle(false, h.index, h.off + from, to - from), b);
    case SplitAt(id, at, new1) =>
      var h := p.handles[id];
      ChangeHandle(p.handles, id, h.(len := at), b);
      AddHandle(p.handles[id := h.(len := at)], new1, h.(off := h.off + at, len := h.len - at), b);
    case Skip(id, n) =>
      var h := p.handles[id];
      ChangeHandle(p.handles, id, h.(off := h.off + n, len := h.len - n), b);
    case Slice(id, from, to) =>
      var h := p.handles[id];
      ChangeHandle(p.handles, id, h.(off := h.off + from, len := to - from), b);
    case Clone(id, new1) => AddHandle(p.handles, new1, p.handles[id], b);
    case Drop(id) => RemoveHandle(p.handles, id, b);
    case Write(_, _, _) =>
  }

  // ---- Conservation, without `freeze_slice` ----

  ghost predicate NeverFrozenSlice(p: Pool) {
    forall b :: 0 <= b < |p.freezes| ==> p.freezes[b] == 0
  }

  /** No live writable range overlaps the range of another live handle. */
  ghost predicate Exclusive(p: Pool) {
    forall i, j :: i in p.handles && j in p.handles && i != j && p.handles[i].writable ==>
      !p.handles[i].Overlaps(p.handles[j])
  }

  ghost predicate Conserved(p: Pool) {
    Shaped(p) && Counted(p) && NeverFrozenSlice(p) && FreeIsExact(p.counters) && Exclusive(p)
  }

  lemma HandleIsCounted(p: Pool, id: nat)
    requires Conserved(p) && id in p.handles
    ensures p.counters.counts[p.handles[id].index] >= 1 && p.handles[id].index !in p.counters.free
  {
    assert id in HandlesOn(p.handles, p.handles[id].index);
  }

  lemma FreeStaysExact(p: Pool, op: Op)
    requires Conserved(p) && Enabled(p, op) && !op.FreezeSlice?
    ensures FreeIsExact(Step(p, op).counters)
  {
    match op
    case Alloc(_) =>
      var first := p.counters.free[0];
      assert forall b :: b in p.counters.free[1..] ==> b in p.counters.free && b != first;
      assert forall b :: b in p.counters.free && b != first ==> b in p.counters.free[1..];
    case SplitAt(id, _, _) => HandleIsCounted(p, id);
    case Clone(id, _) => HandleIsCounted(p, id);
    case Drop(id) => HandleIsCounted(p, id);
    case _ =>
  }

  /** A fresh block has no other handle on it. */
  lemma FreeBlockIsUnused(p: Pool, id: nat)
    requires Conserved(p) && p.counters.free != [] && id in p.handles
    ensures p.handles[id].index != p.counters.free[0]
  {
    HandleIsCounted(p, id);
  }

  lemma StaysExclusive(p: Pool, op: Op)
    requires Conserved(p) && Enabled(p, op) && !op.FreezeSlice?
    ensures Exclusive(Step(p, op))
  {
    if op.Alloc? {
      forall id | id in p.handles
        ensures p.handles[id].index != p.counters.free[0]
      {
        FreeBlockIsUnused(p, id);
      }
    }
  }

  /** Every operation but `freeze_slice` keeps all of it: counts are the live
      handles, the free list is exact, and writable ranges are alone. */
  lemma StepConserves(p: Pool, op: Op)
    requires Conserved(p) && Enabled(p, op) && !op.FreezeSlice?
    ensures Conserved(Step(p, op))
  {
    CountLaw(p, op);
    FreeStaysExact(p, op);
    StaysExclusive(p, op);
  }

  /** A write through one handle is seen through no other. */
  lemma WriteIsPrivate(p: Pool, op: Op, other: nat)
    requires Conserved(p) && Enabled(p, op) && op.Write? && other in p.handles && other != op.id
    ensures View(Step(p, op), other) == View(p, other)
  {
    var h, o := p.handles[op.id], p.handles[other];
    if h.index == o.index && o.len > 0 {
      PutElsewhere(p.memory[h.index], h.off + op.at, op.bytes, o.off, o.off + o.len, h.off, h.off + h.len);
    }
  }

  function View(p: Pool, id: nat): Bytes
    requires id in p.handles && p.handles[id].index < |p.memory|
  {
    var h := p.handles[id];
    if h.off + h.len <= |p.memory[h.index]| then p.memory[h.index][h.off..h.off + h.len] else []
  }

  /** What handles show after each operation: the halves of a split are the whole, a skip
      drops the front, a slice is that part, a frozen part or a clone shows the same bytes,
      and a write is seen where it was made. */
  ghost predicate ShowsRight(p: Pool, op: Op)
    requires Shaped(p) && Enabled(p, op) && Shaped(Step(p, op))
  {
    var t := Step(p, op);
    match op
    case Alloc(new1) => t.handles[new1].writable && |View(t, new1)| == BUF_SIZE
    case Freeze(id) => !t.handles[id].writable && View(t, id) == View(p, id)
    case FreezeSlice(id, from, to, new1) =>
      !t.handles[new1].writable && View(t, new1) == View(p, id)[from..to] && t.handles[id] == p.handles[id]
    case SplitAt(id, at, new1) =>
      && View(t, id) + View(t, new1) == View(p, id) && |View(t, id)| == at
      && t.handles[id].writable == t.handles[new1].writable == p.handles[id].writable
    case Skip(id, n) => t.handles[id].writable && View(t, id) == View(p, id)[n..]
    case Slice(id, from, to) => View(t, id) == View(p, id)[from..to]
    case Clone(id, new1) => View(t, new1) == View(p, id) == View(t, id) && !t.handles[new1].writable
    case Drop(id) => id !in t.handles
    case Write(id, at, bytes) => View(t, id) == Put(View(p, id), at, bytes)
  }

  lemma OperationShows(p: Pool, op: Op)
    requires Shaped(p) && Enabled(p, op)
    ensures Shaped(Step(p, op)) && ShowsRight(p, op)
  {
    StepKeepsShape(p, op);
    match op
    case SplitAt(_, _, _) => SplitShows(p, op);
    case FreezeSlice(_, _, _, _) => PartShows(p, op);
    case Skip(_, _) => PartShows(p, op);
    case Slice(_, _, _) => PartShows(p, op);
    case Write(_, _, _) => WriteShows(p, op);
    case _ => SameShows(p, op);
  }

  lemma SplitShows(p: Pool, op: Op)
    requires op.SplitAt? && Shaped(p) && Enabled(p, op) && Shaped(Step(p, op))
    ensures ShowsRight(p, op)
  {
    var h := p.handles[op.id];
    PartsOf(p.memory[h.index], h.off, h.len, op.at);
  }

  lemma PartShows(p: Pool, op: Op)
    requires (op.FreezeSlice? || op.Skip? || op.Slice?) && Shaped(p) && Enabled(p, op) && Shaped(Step(p, op))
    ensures ShowsRight(p, op)
  {
    var h := p.handles[op.id];
    if op.Skip? {
      PartOf(p.memory[h.index], h.off, h.len, op.n, h.len);
    } else {
      PartOf(p.memory[h.index], h.off, h.len, op.from, op.to);
    }
  }

  lemma WriteShows(p: Pool, op: Op)
    requires op.Write? && Shaped(p) && Enabled(p, op) && Shaped(Step(p, op))
    ensures ShowsRight(p, op)
  {
    var h := p.handles[op.id];
    PutWithin(p.memory[h.index], h.off, h.len, op.at, op.bytes);
  }

  lemma SameShows(p: Pool, op: Op)
    requires (op.Alloc? || op.Freeze? || op.Clone? || op.Drop?) && Shaped(p) && Enabled(p, op) && Shaped(Step(p, op))
    ensures ShowsRight(p, op)
  {
  }

  lemma PartOf(block: Bytes, off: nat, len: nat, from: nat, to: nat)
    requires off + len <= |block| && from <= to <= len
    ensures block[off + from..off + to] == block[off..off + len][from..to]
  {
    var whole, part := block[off..off + len], block[off + from..off + to];
    assert forall i :: 0 <= i < |part| ==> part[i] == whole[from + i];
  }

  lemma PartsOf(block: Bytes, off: nat, len: nat, at: nat)
    requires off + len <= |block| && at <= len
    ensures block[off..off + at] + block[off + at..off + len] == block[off..off + len]
  {
  }

  lemma PutWithin(block: Bytes, off: nat, len: nat, at: nat, bytes: Bytes)
    requires off + len <= |block| && at + |bytes| <= len
    ensures Put(block, off + at, bytes)[off..off + len] == Put(block[off..off + len], at, bytes)
  {
  }

  /** Handles that an operation does not name, and does not make, are left alone. */
  lemma OthersUntouched(p: Pool, op: Op, other: nat)
    requires Shaped(p) && Enabled(p, op) && other in p.handles && (op.Alloc? || other != op.id)
    ensures other in Step(p, op).handles && Step(p, op).handles[other] == p.handles[other]
    ensures !op.Write? ==> Step(p, op).memory == p.memory
  {
  }

  lemma PutElsewhere(block: Bytes, at: nat, bytes: Bytes, from: nat, to: nat, lo: nat, hi: nat)
    requires lo <= at && at + |bytes| <= hi <= |block| && from <= to <= |block| && (to <= lo || hi <= from || lo == hi)
    ensures Put(block, at, bytes)[from..to] == block[from..to]
  {
  }

  // ---- Runs ----

  ghost predicate RunsTo(p: Pool, ops: seq<Op>, q: Pool)
    decreases |ops|
  {
    if ops == [] then p == q else Enabled(p, ops[0]) && RunsTo(Step(p, ops[0]), ops[1..], q)
  }

  function NewPool(numBufs: nat): Pool {
    Pool(FreshCounters(numBufs), seq(numBufs, i => seq(BUF_SIZE, j => 0)), map[], seq(numBufs, i => 0))
  }

  lemma NewPoolConserved(numBufs: nat)
    ensures Conserved(NewPool(numBufs))
  {
    var p := NewPool(numBufs);
    FreshCountersExact(numBufs);
    assert forall b :: HandlesOn(p.handles, b) == {};
  }

  /** Over every run of a fresh pool without `freeze_slice`. */
  lemma {:induction false} RunConserves(p: Pool, ops: seq<Op>, q: Pool)
    requires Conserved(p) && RunsTo(p, ops, q) && forall i :: 0 <= i < |ops| ==> !ops[i].FreezeSlice?
    ensures Conserved(q)
    decreases |ops|
  {
    if ops != [] {
      StepConserves(p, ops[0]);
      RunConserves(Step(p, ops[0]), ops[1..], q);
    }
  }

  /** Over every run, with `freeze_slice`: the law of the counts still holds. */
  lemma {:induction false} RunKeepsCountLaw(p: Pool, ops: seq<Op>, q: Pool)
    requires Shaped(p) && Counted(p) && RunsTo(p, ops, q)
    ensures Shaped(q) && Counted(q)
    decreases |ops|
  {
    if ops != [] {
      CountLaw(p, ops[0]);
      RunKeepsCountLaw(Step(p, ops[0]), ops[1..], q);
    }
  }

  /** `freeze_slice` leaves a handle that is not counted, and one drop is then enough to put
      a block in use on the free list: dropping the slice of a block that has one other
      handle frees the block under it. */
  lemma FreezeSliceFreesTooEarly(p: Pool, id: nat, from: nat, to: nat, slice: nat)
    requires Conserved(p) && Enabled(p, FreezeSlice(id, from, to, slice)) && id != slice
    ensures var q := Step(p, FreezeSlice(id, from, to, slice));
            && q.counters.counts[p.handles[id].index] < |HandlesOn(q.handles, p.handles[id].index)|
            && (HandlesOn(p.handles, p.handles[id].index) == {id} ==>
                  && Enabled(q, Drop(slice))
                  && id in Step(q, Drop(slice)).handles
                  && p.handles[id].index in Step(q, Drop(slice)).counters.free)
  {
    var q, b := Step(p, FreezeSlice(id, from, to, slice)), p.handles[id].index;
    AddHandle(p.handles, slice, q.handles[slice], b);
    var c := Step(q, Drop(slice)).counters;
    if HandlesOn(p.handles, b) == {id} {
      assert p.counters.counts[b] == 1;
      assert c.free == p.counters.free + [b];
    }
  }
}
