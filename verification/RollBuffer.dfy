/** Rolling buffers: a `RollMut` fills a storage block and hands out read-only views
    (`Roll`) on it. The filled part is a byte queue, and a view shows the same bytes until
    the pool hands out its block again. */
module RollBuffer {
  import opened Common
  import opened BufPool
  import opened Transports

  /** A `Roll`: a window on a storage block, which is a pool block if it has an index. */
  datatype Roll = Roll(index: Option<nat>, storage: array<Byte>, off: nat, len: nat) {
    ghost predicate Fits() {
      off + len <= storage.Length
    }

    ghost function Seen(): Bytes
      requires Fits()
      reads storage
    {
      storage[off..off + len]
    }

    /** `split_at`: two windows side by side. */
    function SplitAt(at: nat): (r: (Roll, Roll))
      requires Fits() && at <= len
      reads storage
      ensures r.0.Fits() && r.1.Fits() && r.0.Seen() + r.1.Seen() == Seen() && |r.0.Seen()| == at
    {
      var left, right := this.(len := at), this.(off := off + at, len := len - at);
      assert left.Seen() + right.Seen() == Seen();
      (left, right)
    }

    /** `slice`. */
    function Slice(start: nat, end: nat): (r: Roll)
      requires Fits() && start <= end <= len
      reads storage
      ensures r.Fits() && r.Seen() == Seen()[start..end] && r.storage == storage
    {
      this.(off := off + start, len := end - start)
    }
  }

  datatype RollError = DoesNotFit | OutOfMemory | SubtractionOverflows

  // ---- The shape of a buffer ----

  /** Whether the storage is a box, its size, and where the filled part begins. */
  datatype Shape = Shape(isBox: bool, size: nat, off: nat) {
    /** What fits from the offset on: the filled part and the capacity. */
    function Room(): int {
      size - off
    }

    predicate Valid() {
      off <= size && BUF_SIZE <= size && (!isBox ==> size == BUF_SIZE)
    }

    /** `compact`: back to a pool block if the filled part fits one. */
    function Compacted(len: nat): Shape {
      if isBox && len > BUF_SIZE then Shape(true, size, 0) else Shape(false, BUF_SIZE, 0)
    }

    /** `reserve`. */
    function Reserved(len: nat): Shape {
      if len < Room() - len then this else if off > 0 then Compacted(len) else Shape(true, 2 * size, 0)
    }

    /** `reserve` takes a block from the pool. */
    predicate TakesBlock(len: nat) {
      !(len < Room() - len) && off > 0 && !Compacted(len).isBox
    }

    /** `reserve_at_least` for more than there is room for. */
    function Widened(len: nat, requested: nat): Shape {
      if off > 0 && requested <= BUF_SIZE - len then Compacted(len)
      else Shape(true, if 2 * size < requested + len then requested + len else 2 * size, 0)
    }

    /** A box that holds exactly one pool block from its offset on. */
    predicate Stuck() {
      isBox && off > 0 && Room() == BUF_SIZE
    }

    /** Room is left after `reserve` except for one family: box storage with an offset
        whose filled part is exactly as long as a pool block. */
    lemma RoomAfterReserve(len: nat)
      requires Valid() && len <= Room()
      ensures Reserved(len).Valid() && len <= Reserved(len).Room()
      ensures Reserved(len).Room() > len <==> !(isBox && off > 0 && len == BUF_SIZE && Room() <= 2 * len)
    {
    }
  }

  /** A view that was handed out: the bytes it showed then, and how often its block had been
      taken from the pool by then. */
  datatype Given = Given(roll: Roll, bytes: Bytes, stamp: nat)

  class RollMut {
    const pool: PrivatePool
    /** The pool block that is the storage; none for box storage. */
    var index: Option<nat>
    var storage: array<Byte>
    var off: nat
    var len: nat
    /** The views handed out, in the order they were made. */
    ghost var views: seq<Given>
    /** How often this buffer has taken each block from the pool. */
    ghost var taken: multiset<array<Byte>>

    /** Views on the current storage end at or below `off + len`, the watermark, but for
        those that are older than the taking of it. */
    ghost predicate Sound()
      reads this, pool
    {
      && pool.Valid() && off + len <= storage.Length && BUF_SIZE <= storage.Length
      && (index.Some? ==> index.value < |pool.blocks| && storage == pool.blocks[index.value])
      && (index.None? ==> storage !in pool.blocks) && (forall block :: block in taken ==> block in pool.blocks)
      && forall k :: 0 <= k < |views| ==> Placed(views[k])
    }

    ghost predicate Placed(v: Given)
      reads this
    {
      && v.roll.Fits() && Known(v.roll) && v.stamp <= taken[v.roll.storage]
      && (v.roll.storage == storage && Kept(v) ==> v.roll.off + v.roll.len <= off + len)
    }

    /** A view is on the pool block it names, or on a box. */
    ghost predicate Known(roll: Roll)
      reads this
    {
      if roll.index.Some? then roll.index.value < |pool.blocks| && roll.storage == pool.blocks[roll.index.value]
      else roll.storage !in pool.blocks
    }

    /** The block of a view has not been taken from the pool since the view was made. */
    ghost predicate Kept(v: Given)
      reads this
    {
      taken[v.roll.storage] == v.stamp
    }

    /** Every view whose block was not taken again shows what it showed when it was made. */
    ghost predicate Showing()
      requires Sound()
      reads this, pool, set k | 0 <= k < |views| :: views[k].roll.storage
    {
      forall k :: 0 <= k < |views| && Kept(views[k]) ==> views[k].roll.Seen() == views[k].bytes
    }

    ghost predicate Valid()
      reads this, pool, set k | 0 <= k < |views| :: views[k].roll.storage
    {
      Sound() && Showing()
    }

    ghost function Footprint(): set<object>
      reads this
    {
      {this, pool, storage} + pool.memory
    }

    ghost function Contents(): Bytes
      requires Sound()
      reads this, pool, storage
    {
      storage[off..off + len]
    }

    function ShapeOf(): Shape
      reads this
    {
      Shape(index.None?, storage.Length, off)
    }

    /** `cap`: the room left after the filled part. */
    function Cap(): nat
      requires Sound()
      reads this, pool
    {
      storage.Length - off - len
    }

    constructor Alloc(pool: PrivatePool)
      requires pool.Valid() && pool.free != []
      modifies pool
      ensures Valid() && this.pool == pool && ShapeOf() == Shape(false, BUF_SIZE, 0)
      ensures Contents() == [] && views == [] && |taken| == 1 && index == Some(old(pool.free)[0])
      ensures pool.State() == Allocated(old(pool.State()))
    {
      this.pool := pool;
      var first := pool.Alloc();
      index, storage := first, pool.blocks[first.value];
      off, len, views, taken := 0, 0, [], multiset{pool.blocks[first.value]};
    }

    /** A counted handle on a block is dropped, if there was one. */
    method Release(dropped: Option<nat>)
      requires Valid() && (dropped.Some? ==> dropped.value < |pool.blocks|)
      modifies pool
      ensures Valid() && Contents() == old(Contents())
      ensures pool.State() == if dropped.Some? then Dec(old(pool.State()), dropped.value) else old(pool.State())
    {
      if dropped.Some? {
        pool.DecRef(dropped.value);
      }
    }

    method CopyToBox(size: nat) returns (next: array<Byte>)
      requires Sound() && len <= size
      ensures fresh(next) && next.Length == size && next[0..len] == Contents() && next[..] == Contents() + Zeros(size - len)
    {
      next := new Byte[size](i => 0);
      forall i | 0 <= i < len {
        next[i] := storage[off + i];
      }
    }

    /** Moves the filled part to the front of a new box. */
    method MoveToBox(size: nat)
      requires Valid() && len <= size && BUF_SIZE <= size
      modifies this, pool
      ensures Valid() && fresh(storage) && Contents() == old(Contents()) && len == old(len)
      ensures views == old(views) && taken == old(taken) && ShapeOf() == Shape(true, size, 0)
      ensures storage[..] == old(Contents()) + Zeros(size - len)
      ensures pool.State() == if old(index).Some? then Dec(old(pool.State()), old(index).value) else old(pool.State())
    {
      var next := CopyToBox(size);
      var dropped := index;
      index, storage, off := None, next, 0;
      Release(dropped);
    }

    /** The block that the pool hands out next, if it has one. */
    ghost function NextBlock(): set<array<Byte>>
      reads this, pool
    {
      if pool.free != [] && pool.free[0] < |pool.blocks| then {pool.blocks[pool.free[0]]} else {}
    }

    /** What has been taken once that block is. Views of it are promised nothing any more: it
        may have been freed under them. */
    ghost function AfterTaking(): multiset<array<Byte>>
      reads this, pool
    {
      taken + multiset(NextBlock())
    }

    method TakeNext() returns (first: nat)
      requires Valid() && pool.free != []
      modifies this`taken, pool
      ensures Valid() && first == old(pool.free)[0] < |pool.blocks| && taken == old(AfterTaking())
      ensures pool.State() == Allocated(old(pool.State()))
      ensures forall k :: 0 <= k < |views| && Kept(views[k]) ==> views[k].roll.storage != pool.blocks[first]
    {
      taken := AfterTaking();
      var next := pool.Alloc();
      first := next.value;
    }

    /** The filled part is at the front of this block now. */
    method SwitchTo(next: nat)
      requires Valid() && next < |pool.blocks| && len <= BUF_SIZE
      requires forall k :: 0 <= k < |views| && Kept(views[k]) ==> views[k].roll.storage != pool.blocks[next]
      modifies this`index, this`storage, this`off
      ensures Valid() && index == Some(next) && ShapeOf() == Shape(false, BUF_SIZE, 0) && storage == pool.blocks[next]
    {
      index, storage, off := Some(next), pool.blocks[next], 0;
    }

    /** Moves the filled part to the front of the next free block. */
    method MoveToPool()
      requires Valid() && len <= BUF_SIZE && pool.free != []
      modifies this, pool, NextBlock()
      ensures Valid() && Contents() == old(Contents()) && len == old(len)
      ensures index == Some(old(pool.free)[0]) && ShapeOf() == Shape(false, BUF_SIZE, 0)
      ensures taken == old(AfterTaking()) && views == old(views)
      ensures storage == pool.blocks[index.value]
      ensures storage[..] == BufPool.Put(old(pool.blocks[pool.free[0]][..]), 0, old(Contents()))
      ensures pool.State() == if old(index).Some? then Dec(Allocated(old(pool.State())), old(index).value)
                              else Allocated(old(pool.State()))
    {
      var dropped := index;
      var first := TakeNext();
      CopyTo(pool.blocks[first]);
      SwitchTo(first);
      assert storage[0..len] == storage[..len];
      Release(dropped);
    }

    /** The filled part copied to the front of a block, which may be the storage itself. */
    method CopyTo(next: array<Byte>)
      requires Valid() && len <= next.Length && next in pool.blocks
      requires forall k :: 0 <= k < |views| && Kept(views[k]) ==> views[k].roll.storage != next
      modifies next
      ensures Valid() && next[..len] == old(Contents()) && next[..] == BufPool.Put(old(next[..]), 0, old(Contents()))
    {
      ghost var filled := Contents();
      forall i | 0 <= i < len {
        next[i] := storage[off + i];
      }
      assert next[..len] == filled;
    }

    /** `grow`: twice the storage, always boxed. */
    method Grow()
      requires Valid()
      modifies this, pool
      ensures Valid() && fresh(storage) && Contents() == old(Contents()) && len == old(len)
      ensures views == old(views) && taken == old(taken) && ShapeOf() == Shape(true, 2 * old(storage.Length), 0)
      ensures pool.State() == if old(index).Some? then Dec(old(pool.State()), old(index).value) else old(pool.State())
    {
      MoveToBox(2 * storage.Length);
    }

    /** `compact`. It asserts that the block is not full, and that pool storage has an
        offset to gain. Views of a block that it takes from the pool are given up. */
    method Compact() returns (r: Result<(), RollError>)
      requires Valid() && len != storage.Length && (index.Some? ==> off != 0)
      modifies this, pool, NextBlock()
      ensures Valid() && (storage == old(storage) || fresh(storage) || storage in old(NextBlock()))
      ensures Contents() == old(Contents()) && len == old(len) && views == old(views)
      ensures r == if !old(ShapeOf()).Compacted(len).isBox && old(pool.free) == [] then Err(OutOfMemory) else Ok(())
      ensures r.Ok? ==> ShapeOf() == old(ShapeOf()).Compacted(len)
      ensures taken == if r.Ok? && index.Some? then old(AfterTaking()) else old(taken)
      ensures r.Err? ==> ShapeOf() == old(ShapeOf()) && storage == old(storage) && pool.State() == old(pool.State())
    {
      if index.None? && len > BUF_SIZE {
        MoveToBox(storage.Length);
      } else {
        if pool.free == [] {
          return Err(OutOfMemory);
        }
        MoveToPool();
      }
      r := Ok(());
    }

    /** `reserve`. */
    method Reserve() returns (r: Result<(), RollError>)
      requires Valid()
      modifies this, pool, NextBlock()
      ensures Valid() && (storage == old(storage) || fresh(storage) || storage in old(NextBlock()))
      ensures Contents() == old(Contents()) && len == old(len) && views == old(views)
      ensures r == if old(ShapeOf()).TakesBlock(len) && old(pool.free) == [] then Err(OutOfMemory) else Ok(())
      ensures r.Ok? ==> ShapeOf() == old(ShapeOf()).Reserved(len)
      ensures r.Ok? ==> (Cap() > 0 <==> !(old(index).None? && old(off) > 0 && len == BUF_SIZE && old(Cap()) <= len))
      ensures taken == if r.Ok? && old(ShapeOf()).TakesBlock(len) then old(AfterTaking()) else old(taken)
      ensures r.Err? ==> ShapeOf() == old(ShapeOf()) && storage == old(storage) && pool.State() == old(pool.State())
    {
      ghost var shape := ShapeOf();
      shape.RoomAfterReserve(len);
      if len < Cap() {
        return Ok(());
      }
      if off > 0 {
        r := Compact();
      } else {
        Grow();
        r := Ok(());
      }
    }

    /** `reserve_at_least`. With an offset it computes `BUF_SIZE - len`, which overflows
        when more than a block is filled; otherwise there is room for the request after it. */
    method ReserveAtLeast(requested: nat) returns (r: Result<(), RollError>)
      requires Valid()
      modifies this, pool, NextBlock()
      ensures Valid() && (storage == old(storage) || fresh(storage) || storage in old(NextBlock()))
      ensures Contents() == old(Contents()) && len == old(len) && views == old(views)
      ensures r == Err(SubtractionOverflows) <==> requested > old(Cap()) && old(off) > 0 && len > BUF_SIZE
      ensures r == Err(OutOfMemory) <==>
              requested > old(Cap()) && old(off) > 0 && requested <= BUF_SIZE - len && old(pool.free) == []
      ensures r.Err? ==> r == Err(SubtractionOverflows) || r == Err(OutOfMemory)
      ensures r.Ok? ==> Cap() >= requested
      ensures r.Ok? ==> ShapeOf() == if requested <= old(Cap()) then old(ShapeOf()) else old(ShapeOf()).Widened(len, requested)
      ensures taken == old(taken) || taken == old(AfterTaking())
    {
      if requested <= Cap() {
        return Ok(());
      }
      if off > 0 && len > BUF_SIZE {
        return Err(SubtractionOverflows);
      }
      if off > 0 && requested <= BUF_SIZE - len {
        r := Compact();
      } else {
        var twice := 2 * storage.Length;
        MoveToBox(if twice < requested + len then requested + len else twice);
        r := Ok(());
      }
    }

    /** Bytes copied to the end of the filled part: `put`, and what a read does. */
    method Append(bytes: Bytes)
      requires Valid() && |bytes| <= Cap()
      modifies this`len, storage
      ensures Valid() && Contents() == old(Contents()) + bytes && len == old(len) + |bytes|
      ensures storage[..] == BufPool.Put(old(storage[..]), old(off + len), bytes)
    {
      WriteAt(off + len, bytes);
      ghost var at := off + len;
      assert storage[off..at + |bytes|] == storage[off..at] + storage[at..at + |bytes|];
      len := len + |bytes|;
    }

    /** Writes past the watermark, where no view looks. */
    method WriteAt(at: nat, bytes: Bytes)
      requires Valid() && off + len <= at && at + |bytes| <= storage.Length
      modifies storage
      ensures Valid() && Contents() == old(Contents()) && storage[at..at + |bytes|] == bytes
      ensures storage[..] == BufPool.Put(old(storage[..]), at, bytes)
    {
      forall i | 0 <= i < |bytes| {
        storage[at + i] := bytes[i];
      }
      assert forall i :: 0 <= i < at ==> storage[i] == old(storage[i]);
      assert storage[off..off + len] == old(storage[off..off + len]);
      forall k | 0 <= k < |views| && Kept(views[k])
        ensures views[k].roll.Seen() == views[k].bytes
      {
        ghost var v := views[k].roll;
        assert v.storage[v.off..v.off + v.len] == old(v.storage[v.off..v.off + v.len]);
      }
    }

    method Put(bytes: Bytes) returns (r: Result<(), RollError>)
      requires Valid()
      modifies this`len, storage
      ensures Valid()
      ensures r == if |bytes| > old(Cap()) then Err(DoesNotFit) else Ok(())
      ensures Contents() == if r.Ok? then old(Contents()) + bytes else old(Contents())
    {
      if |bytes| > Cap() {
        return Err(DoesNotFit);
      }
      Append(bytes);
      r := Ok(());
    }

    /** `write`: room is made where needed. */
    method Write(bytes: Bytes) returns (r: Result<(), RollError>)
      requires Valid()
      modifies this, pool, NextBlock(), storage
      ensures Valid() && (storage == old(storage) || fresh(storage) || storage in old(NextBlock())) && views == old(views)
      ensures Contents() == if r.Ok? then old(Contents()) + bytes else old(Contents())
      ensures r == Err(SubtractionOverflows) <==> |bytes| > old(Cap()) && old(off) > 0 && old(len) > BUF_SIZE
      ensures r == Err(OutOfMemory) <==>
              |bytes| > old(Cap()) && old(off) > 0 && |bytes| <= BUF_SIZE - old(len) && old(pool.free) == []
      ensures r.Err? ==> r == Err(SubtractionOverflows) || r == Err(OutOfMemory)
      ensures r.Ok? ==> len == old(len) + |bytes|
      ensures r.Ok? ==> ShapeOf() == if |bytes| <= old(Cap()) then old(ShapeOf()) else old(ShapeOf()).Widened(old(len), |bytes|)
      ensures taken == old(taken) || taken == old(AfterTaking())
    {
      if Cap() < |bytes| {
        r := ReserveAtLeast(|bytes|);
        if r.Err? {
          return;
        }
      }
      Append(bytes);
      r := Ok(());
    }

    /** `read_into`, which panics without room: the transport gives some of its bytes. */
    method ReadInto(limit: nat, transport: Transport) returns (r: Result<nat, ()>)
      requires Valid() && limit > 0 && Cap() > 0
      modifies this`len, storage, transport
      ensures Valid() && transport.broken == (old(transport.broken) || r.Err?)
      ensures r.Err? ==> Contents() == old(Contents()) && transport.unread == old(transport.unread)
      ensures r.Ok? ==> r.value <= limit && (r.value == 0 <==> old(transport.unread) == []) && len == old(len) + r.value
      ensures r.Ok? ==> Contents() + transport.unread == old(Contents()) + old(transport.unread)
    {
      var got := transport.Read(if limit < Cap() then limit else Cap());
      if got.Err? {
        return Err(());
      }
      Reassociate(Contents(), got.value, transport.unread);
      Append(got.value);
      r := Ok(|got.value|);
    }

    /** A view of the first bytes of the filled part, which on pool storage is not counted. */
    method Give(n: nat) returns (roll: Roll)
      requires Valid() && n <= len
      modifies this`views
      ensures Valid() && roll == Roll(index, storage, off, n) && roll.Fits() && roll.Seen() == Contents()[..n]
      ensures views == old(views) + [Given(roll, Contents()[..n], taken[storage])]
    {
      roll := Roll(index, storage, off, n);
      assert roll.Seen() == Contents()[..n];
      views := views + [Given(roll, Contents()[..n], taken[storage])];
    }

    /** `filled`. */
    method Filled() returns (roll: Roll)
      requires Valid()
      modifies this`views
      ensures Valid() && roll == Roll(index, storage, off, len) && roll.Fits() && roll.Seen() == Contents()
      ensures views == old(views) + [Given(roll, Contents(), taken[storage])]
    {
      assert Contents()[..len] == Contents();
      roll := Give(len);
    }

    /** A view is dropped: on pool storage its block loses a count. */
    method DropView(roll: Roll)
      requires Valid() && (roll.index.Some? ==> roll.index.value < |pool.blocks|)
      modifies pool
      ensures Valid() && Contents() == old(Contents())
      ensures pool.State() == if roll.index.Some? then Dec(old(pool.State()), roll.index.value) else old(pool.State())
    {
      Release(roll.index);
    }

    /** A view is cloned, or split in two: its block gains a count. */
    method CloneView(roll: Roll)
      requires Valid() && (roll.index.Some? ==> roll.index.value < |pool.blocks|)
      modifies pool
      ensures Valid()
      ensures pool.State() == if roll.index.Some? then Inc(old(pool.State()), roll.index.value) else old(pool.State())
    {
      if roll.index.Some? {
        pool.IncRef(roll.index.value);
      }
    }

    method Skip(n: nat)
      requires Valid() && n <= len
      modifies this`off, this`len
      ensures Valid() && Contents() == old(Contents())[n..] && off == old(off) + n && len == old(len) - n
    {
      off, len := off + n, len - n;
    }

    /** `take_at_most`. */
    method TakeAtMost(n: nat) returns (roll: Option<Roll>)
      requires Valid() && n > 0
      modifies this`off, this`len, this`views
      ensures Valid()
      ensures old(len) == 0 ==> roll.None? && Contents() == [] && views == old(views) && off == old(off)
      ensures old(len) > 0 ==>
        && roll.Some? && roll.value.Fits() && |roll.value.Seen()| == Min(n, old(len))
        && roll.value.Seen() + Contents() == old(Contents())
        && views == old(views) + [Given(roll.value, roll.value.Seen(), taken[storage])]
        && off == old(off) + Min(n, old(len)) && len == old(len) - Min(n, old(len))
    {
      if len == 0 {
        return None;
      }
      var front := TakeFront(if n < len then n else len);
      roll := Some(front);
    }

    method TakeFront(n: nat) returns (roll: Roll)
      requires Valid() && n <= len
      modifies this`off, this`len, this`views
      ensures Valid() && roll.Fits() && |roll.Seen()| == n && roll.Seen() + Contents() == old(Contents())
      ensures views == old(views) + [Given(roll, roll.Seen(), taken[storage])] && off == old(off) + n && len == old(len) - n
    {
      ghost var filled := Contents();
      roll := Give(n);
      Skip(n);
      assert filled[..n] + filled[n..] == filled;
    }

    /** `keep`: drop what comes before a view of the filled part. */
    method Keep(rest: Roll)
      requires Valid() && rest.storage == storage && off <= rest.off <= off + len
      modifies this`off, this`len
      ensures Valid() && Contents() == old(Contents())[rest.off - old(off)..]
      ensures off == rest.off && off + len == old(off + len)
    {
      len := len - (rest.off - off);
      off := rest.off;
    }

    /** The written bytes as a view, past which the storage is advanced. A closure that
        fails may have written there, but hands out nothing. */
    method HandOut(bytes: Bytes, closureFails: bool) returns (r: Option<Roll>)
      requires Valid() && len == 0 && |bytes| <= Cap()
      modifies this`off, this`len, this`views, storage
      ensures Valid() && len == 0 && r.Some? == !closureFails
      ensures r.Some? ==> r.value.Fits() && r.value.Seen() == bytes
      ensures r.Some? ==> views == old(views) + [Given(r.value, bytes, taken[storage])]
      ensures r.None? ==> views == old(views)
    {
      if closureFails {
        WriteAt(off, bytes);
        return None;
      }
      Append(bytes);
      var roll := Filled();
      Skip(len);
      r := Some(roll);
    }

    /** `put_to_roll`: `bytes` written past the watermark and handed out at once. */
    method PutToRoll(bytes: Bytes, closureFails: bool) returns (r: Option<Roll>)
      requires Valid() && len == 0
      modifies this, pool, NextBlock(), storage
      ensures Valid() && len == 0 && (storage == old(storage) || fresh(storage) || storage in old(NextBlock()))
      ensures taken == old(taken) || taken == old(AfterTaking())
      ensures r.Some? ==> r.value.Fits() && r.value.Seen() == bytes
      ensures views == if r.Some? then old(views) + [Given(r.value, bytes, taken[storage])] else old(views)
      ensures !closureFails && old(pool.free) != [] ==> r.Some?
    {
      var reserved := ReserveAtLeast(|bytes|);
      if reserved.Err? {
        return None;
      }
      r := HandOut(bytes, closureFails);
    }
  }

  // ---- Every sequence of operations ----

  datatype RollOp =
    | OpGrow
    | OpCompact
    | OpReserve
    | OpReserveAtLeast(requested: nat)
    | OpPut(bytes: Bytes)
    | OpWrite(bytes: Bytes)
    | OpRead(limit: nat)
    | OpFilled
    | OpSkip(n: nat)
    | OpTake(n: nat)
    | OpKeep(from: nat)
    | OpPutToRoll(bytes: Bytes, closureFails: bool)
  {
    /** The operations that may take a block from the pool. */
    predicate MayTake() {
      OpCompact? || OpReserve? || OpReserveAtLeast? || OpWrite? || OpPutToRoll?
    }
  }

  function Takers(ops: seq<RollOp>): nat {
    if ops == [] then 0 else Takers(ops[..|ops| - 1]) + if ops[|ops| - 1].MayTake() then 1 else 0
  }

  /** An operation on the storage, or nothing where the source panics. */
  method ApplyToStorage(b: RollMut, op: RollOp)
    requires b.Valid()
    modifies b, b.pool, b.NextBlock(), b.storage
    ensures b.Valid() && old(b.views) <= b.views && b.Contents() == old(b.Contents())
    ensures b.taken == old(b.taken) || (op.MayTake() && b.taken == old(b.AfterTaking()))
    ensures b.storage == old(b.storage) || fresh(b.storage) || b.storage in old(b.NextBlock())
  {
    match op
    case OpGrow => b.Grow();
    case OpCompact =>
      if b.len != b.storage.Length && (b.index.None? || b.off != 0) {
        var _ := b.Compact();
      }
    case OpReserve => var _ := b.Reserve();
    case OpReserveAtLeast(requested) => var _ := b.ReserveAtLeast(requested);
    case OpFilled => var _ := b.Filled();
    case OpPutToRoll(bytes, closureFails) =>
      if b.len == 0 {
        var _ := b.PutToRoll(bytes, closureFails);
        assert b.Contents() == [];
      }
    case _ =>
  }

  /** Bytes taken from the front, by any of the operations that do, or none where the
      source panics. */
  method ApplyRemoval(b: RollMut, op: RollOp) returns (removed: Bytes)
    requires b.Valid()
    modifies b
    ensures b.Valid() && old(b.views) <= b.views && b.taken == old(b.taken) && b.storage == old(b.storage)
    ensures removed + b.Contents() == old(b.Contents())
  {
    removed := [];
    ghost var before := b.Contents();
    match op
    case OpSkip(n) =>
      if n <= b.len {
        removed := b.storage[b.off..b.off + n];
        SkippedPart(before, n, removed);
        b.Skip(n);
      }
    case OpTake(n) =>
      if n > 0 {
        var roll := b.TakeAtMost(n);
        removed := if roll.Some? then roll.value.storage[roll.value.off..roll.value.off + roll.value.len] else [];
      }
    case OpKeep(from) =>
      if b.off <= from <= b.off + b.len {
        removed := b.storage[b.off..from];
        SkippedPart(before, from - b.off, removed);
        b.Keep(Roll(b.index, b.storage, from, 0));
      }
    case _ =>
  }

  /** Bytes copied to the end, or none where they are refused. */
  method ApplyAddition(b: RollMut, op: RollOp) returns (added: Bytes)
    requires b.Valid() && (op.OpPut? || op.OpWrite?)
    modifies b, b.pool, b.NextBlock(), b.storage
    ensures b.Valid() && b.views == old(b.views) && b.Contents() == old(b.Contents()) + added
    ensures b.taken == old(b.taken) || (op.MayTake() && b.taken == old(b.AfterTaking()))
    ensures b.storage == old(b.storage) || fresh(b.storage) || b.storage in old(b.NextBlock())
  {
    var r;
    if op.OpPut? {
      r := b.Put(op.bytes);
    } else {
      r := b.Write(op.bytes);
    }
    added := if r.Ok? then op.bytes else [];
  }

  /** One operation: the bytes it puts in the queue and the bytes it takes out. */
  method Apply(b: RollMut, op: RollOp, transport: Transport) returns (added: Bytes, removed: Bytes)
    requires b.Valid()
    modifies b, b.pool, b.NextBlock(), b.storage, transport
    ensures b.Valid() && old(b.views) <= b.views
    ensures b.taken == old(b.taken) || (op.MayTake() && b.taken == old(b.AfterTaking()))
    ensures b.storage == old(b.storage) || fresh(b.storage) || b.storage in old(b.NextBlock())
    ensures removed + b.Contents() == old(b.Contents()) + added
  {
    added, removed := [], [];
    if op.OpPut? || op.OpWrite? {
      added := ApplyAddition(b, op);
    } else if op.OpRead? {
      if op.limit > 0 && b.Cap() > 0 {
        added := ApplyRead(b, op.limit, transport);
      }
    } else if op.OpSkip? || op.OpTake? || op.OpKeep? {
      removed := ApplyRemoval(b, op);
    } else {
      ApplyToStorage(b, op);
    }
  }

  method ApplyRead(b: RollMut, limit: nat, transport: Transport) returns (added: Bytes)
    requires b.Valid() && limit > 0 && b.Cap() > 0
    modifies b`len, b.storage, transport
    ensures b.Valid() && b.Contents() == old(b.Contents()) + added
  {
    ghost var before := b.Contents();
    var at := b.off + b.len;
    var n := b.ReadInto(limit, transport);
    added := b.storage[at..b.off + b.len];
    ghost var all := b.Contents();
    if n.Ok? {
      assert all + transport.unread == before + old(transport.unread);
      assert all[..|before|] == (all + transport.unread)[..|before|] == before;
    }
    assert all == all[..|before|] + all[|before|..];
    assert all[|before|..] == added;
  }

  lemma SkippedPart(contents: Bytes, n: nat, front: Bytes)
    requires n <= |contents| && front == contents[..n]
    ensures front + contents[n..] == contents
  {
  }

  /** Over every sequence of operations: the filled part is a first-in first-out queue of
      bytes; no view that was handed out is forgotten; and each, made before or during the
      run, shows what it showed when it was made, if its block was not taken from the pool
      since, as that of a box never is. Blocks are taken by some operations, one at a time. */
  method Run(b: RollMut, ops: seq<RollOp>, transport: Transport) returns (added: Bytes, removed: Bytes)
    requires b.Valid()
    modifies b.Footprint(), transport
    ensures b.Valid() && old(b.views) <= b.views && old(b.taken) <= b.taken && |b.taken| <= |old(b.taken)| + Takers(ops)
    ensures forall k :: 0 <= k < |b.views| && (b.Kept(b.views[k]) || b.views[k].roll.index.None?) ==>
                          b.views[k].roll.Seen() == b.views[k].bytes
    ensures removed + b.Contents() == old(b.Contents()) + added
  {
    added, removed := [], [];
    for i := 0 to |ops|
      invariant b.Valid() && old(b.views) <= b.views
      invariant old(b.taken) <= b.taken && |b.taken| <= |old(b.taken)| + Takers(ops[..i])
      invariant b.storage == old(b.storage) || fresh(b.storage) || b.storage in b.pool.memory
      invariant removed + b.Contents() == old(b.Contents()) + added
    {
      ghost var before := b.Contents();
      var more, less := Apply(b, ops[i], transport);
      QueueStep(removed, less, b.Contents(), before, old(b.Contents()), added, more);
      added, removed := added + more, removed + less;
      assert ops[..i + 1][..i] == ops[..i];
    }
    assert ops[..|ops|] == ops;
  }

  lemma QueueStep(removed: Bytes, less: Bytes, after: Bytes, before: Bytes, first: Bytes, added: Bytes, more: Bytes)
    requires removed + before == first + added && less + after == before + more
    ensures removed + less + after == first + (added + more)
  {
    Reassociate(removed, less, after);
    Reassociate(removed, before, more);
    Reassociate(first, added, more);
  }

  // ---- A buffer that `reserve` leaves full ----

  /** A box of two blocks, filled and half consumed: `reserve` succeeds and no room is left. */
  method ReserveLeavesNoRoom(pool: PrivatePool, bytes: Bytes) returns (b: RollMut, r: Result<(), RollError>)
    requires pool.Valid() && |pool.free| >= 2 && |bytes| == 2 * BUF_SIZE
    modifies pool, pool.memory
    ensures b.Valid() && r.Ok? && b.Cap() == 0 && b.Contents() == bytes[BUF_SIZE..]
  {
    b := new RollMut.Alloc(pool);
    b.Grow();
    assert pool.free != [] && b.Contents() + bytes == bytes;
    b.Append(bytes);
    b.Skip(BUF_SIZE);
    r := b.Reserve();
  }
  // ---- A buffer on which `reserve_at_least` overflows ----

  /** Two pieces, each as long as a pool block, written to a new buffer. */
  method WriteTwo(b: RollMut, piece: Bytes, next: Bytes)
    requires b.Valid() && b.ShapeOf() == Shape(false, BUF_SIZE, 0) && b.len == 0 && |piece| == |next| == BUF_SIZE
    modifies b, b.pool, b.pool.memory
    ensures b.Valid() && b.len == 2 * BUF_SIZE && b.ShapeOf() == Shape(true, 2 * BUF_SIZE, 0) && fresh(b.storage)
  {
    var _ := b.Write(piece);
    var _ := b.Write(next);
  }

  /** A piece that does not fit a box without an offset doubles it. */
  method WriteMore(b: RollMut, piece: Bytes)
    requires b.Valid() && b.ShapeOf() == Shape(true, b.len, 0) && 0 < |piece| <= b.len
    modifies b, b.pool, b.pool.memory, b.storage
    ensures b.Valid() && b.len == old(b.len) + |piece| && b.ShapeOf() == Shape(true, 2 * old(b.len), 0) && fresh(b.storage)
  {
    var _ := b.Write(piece);
  }

  /** A header block written to a new buffer and taken out whole. */
  method WriteFirst(pool: PrivatePool, block: Bytes) returns (b: RollMut)
    requires pool.Valid() && pool.free != [] && 2 * BUF_SIZE < |block| < 3 * BUF_SIZE
    modifies pool, pool.memory
    ensures b.Valid() && fresh(b) && fresh(b.storage) && b.pool == pool && b.len == 0
    ensures b.ShapeOf() == Shape(true, 4 * BUF_SIZE, |block|)
  {
    b := new RollMut.Alloc(pool);
    WriteTwo(b, block[..BUF_SIZE], block[BUF_SIZE..2 * BUF_SIZE]);
    WriteMore(b, block[2 * BUF_SIZE..]);
    var _ := b.TakeAtMost(|block|);
  }

  /** Two header blocks compressed into one scratch buffer: the first of two to three pool
      blocks; the second fills the storage, and its next piece overflows. */
  method SecondBlockOverflows(pool: PrivatePool, first: Bytes, second: Bytes) returns (b: RollMut, r: Result<(), RollError>)
    requires pool.Valid() && pool.free != [] && 2 * BUF_SIZE < |first| < 3 * BUF_SIZE && |first| + |second| > 4 * BUF_SIZE
    modifies pool, pool.memory
    ensures b.Valid() && r == Err(SubtractionOverflows) && b.Contents() == second[..4 * BUF_SIZE - |first|]
  {
    b := WriteFirst(pool, first);
    var fits := 4 * BUF_SIZE - |first|;
    assert b.Contents() + second[..fits] == second[..fits];
    r := b.Write(second[..fits]);
    r := b.Write(second[fits..]);
  }
}
